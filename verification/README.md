# Virtual-workspace options of kcp, modelled in Dafny

This project models the options package of kcp's virtual-workspaces server
(`pkg/virtual/options/options.go`), as the source has it:

- **`Merge`**: takes any number of lists of named virtual workspaces and scans
  every workspace of every list in order, keeping a `seen` map of names. It fails
  with a duplicate-virtual-workspace error on the first name it has already seen,
  including a repeat inside a single list. Otherwise it returns the lists
  concatenated in argument order. The model is an imperative method with nested
  loops and the same `seen` map. Its loop invariants prove it equal to a
  declarative specification, `Workspaces.Merged`. That specification is defined
  from the flattening of the lists and the first repeated name, and its
  properties are proved as lemmas.
- **`NewOptions`**: records the admission plugins that are already registered
  (the kube defaults), then registers the virtual-workspace admission plugin.
  It sets the recommended plugin order to that plugin followed by the defaults,
  and disables all the defaults. The model is a class whose constructor makes
  these field updates step by step. Lemmas show what this configuration leaves
  running: the virtual plugin alone. They also show why the defaults must be
  captured before the registration.
- **`Validate`**: concatenates the validation errors of the syncer, APIExport,
  initializing-workspaces and admission options, in that order.
- **`NewVirtualWorkspaces`**: runs the APIExport builder and then the
  initializing-workspaces builder. It propagates the first builder error, and
  otherwise merges the two results.

Foreign pieces become plain inputs:
- The plugin registry's listing becomes a `seq<string>`.
- The name of the virtual-workspace admission plugin becomes a parameter, because
  the admission package that defines it is not part of this model.
- Each builder's outcome becomes a `Result`.
- The sub-option validators' errors become sequences.

Files:
- `wrappers.dfy`: `Option` and `Result`.
- `workspaces.dfy`: named workspaces, flattening, the first duplicate, `Merged` and its lemmas.
- `options.dfy`: the `Merge` method, the plugin-order lemmas, the `AdmissionOptions` and `Options` classes.

## Model

| member | source | states |
|---|---|---|
| `VirtualOptions.Merge` | pkg/virtual/options/options.go:112-125 | The scanning loop returns exactly `Merged(sets)`. On success that is the concatenation of all lists in argument and list order, with pairwise distinct names. It fails iff some name occurs twice in the flattened input. |
| `VirtualOptions.DuplicateIsFirst` | pkg/virtual/options/options.go:115-118 | Say the workspace at list `i`, position `j` has a name already seen among the elements scanned before it, and those earlier elements are free of repeats. Then the whole merge fails with an error naming that workspace. |
| `Workspaces.Merged` | pkg/virtual/options/options.go:112-125 | Succeeds iff the names of the flattened lists are pairwise distinct, and then returns the flattening. Otherwise it fails with the name at the first position whose name occurred earlier. |
| `Workspaces.FirstDuplicate` | pkg/virtual/options/options.go:115-119 | Finds no position iff all names are distinct. Otherwise the position it finds is the first repeat in scan order: everything before it is repeat-free and its name occurs earlier. |
| `Workspaces.FirstDuplicateUnique` | pkg/virtual/options/options.go:115-119 | At most one position is the first repeat, so the reported name is determined by the input. |
| `Workspaces.FirstDuplicateBreaksDistinct` | pkg/virtual/options/options.go:117-118 | A sequence that has a first repeat does not have distinct names. |
| `Workspaces.DistinctSnoc` | pkg/virtual/options/options.go:116-120 | Adding one workspace to a list keeps the names distinct iff its name is not already seen. |
| `Workspaces.FlattenAppend` | pkg/virtual/options/options.go:115-122 | Concatenating the argument lists and then flattening equals flattening each part and concatenating the results. |
| `Workspaces.FlattenPair` | pkg/virtual/options/options.go:105 | Flattening two lists gives the first list followed by the second. |
| `Workspaces.FlattenMembership` | pkg/virtual/options/options.go:122 | A workspace is in the result iff it is in one of the input lists. |
| `Workspaces.FirstDuplicateExtend` | pkg/virtual/options/options.go:117-118 | Appending more workspaces after a repeat does not change which repeat is first. |
| `Workspaces.MergedAllEmpty` | pkg/virtual/options/options.go:113-124 | Merging no lists, or only empty lists, succeeds with the empty list. |
| `Workspaces.DistinctConcat` | pkg/virtual/options/options.go:114-120 | Two lists have distinct names together iff each does and they share no name. |
| `Workspaces.MergedPair` | pkg/virtual/options/options.go:112-125 | Merging two lists succeeds iff each is repeat-free and they share no name, and the result is then the first list followed by the second. |
| `Workspaces.MergedPairSymmetric` | pkg/virtual/options/options.go:112-125 | Whether two lists merge does not depend on their argument order. |
| `Workspaces.MergedFailureExtends` | pkg/virtual/options/options.go:115-119 | If the leading lists already fail, adding more lists reports the same duplicate. |
| `Workspaces.MergedInStages` | pkg/virtual/options/options.go:112-125 | If merging everything succeeds, merging each half succeeds too, and merging those two results gives the same list. |
| `Workspaces.SingleSharedNameRejected` | pkg/virtual/options/options.go:115-118 | Two lists, each free of repeats, that share exactly one name fail to merge, and the error names that shared name. |
| `Workspaces.DuplicateApiexportRejected` | pkg/virtual/options/options.go:117-118 | One example: a set holding "apiexport" and a set holding "initializingworkspaces" then "apiexport" fail to compose, with an error naming "apiexport". |
| `VirtualOptions.EnabledPlugins` | pkg/virtual/options/options.go:62-68 | The plugins left on are exactly those of the recommended order that are not disabled, kept in the recommended order. |
| `VirtualOptions.DisablingAllLeavesNone` | pkg/virtual/options/options.go:62-68 | If every plugin of the order is disabled, no plugin stays on. |
| `VirtualOptions.OnlyVirtualPluginEnabled` | pkg/virtual/options/options.go:53-68 | With the virtual plugin first and the earlier-registered defaults after it and disabled, only the virtual plugin stays on. |
| `VirtualOptions.CaptureAfterRegistrationDisablesAll` | pkg/virtual/options/options.go:54-57 | Listing the registry after the virtual plugin is registered would disable that plugin too, leaving nothing on. This is why the defaults are captured first. |
| `VirtualOptions.Options.NewOptions` | pkg/virtual/options/options.go:45-71 | After construction the virtual plugin is registered. The recommended order is that plugin followed by the defaults, and the disabled list is exactly the defaults. The order covers every registered plugin and each disabled one. If the plugin was not already registered, it is the only one left on. |
| `VirtualOptions.Options.Validate` | pkg/virtual/options/options.go:73-82 | Returns the syncer, APIExport, initializing-workspaces and admission errors concatenated in that order. It returns none iff all four validators report none. |
| `VirtualOptions.Options.NewVirtualWorkspaces` | pkg/virtual/options/options.go:89-110 | If the APIExport builder fails, returns its error without running the other builder. If the APIExport builder succeeds, runs the initializing-workspaces builder and returns its error if it fails. Otherwise it returns `Merged([apiexports, initializingworkspaces])`. Success holds iff both builders succeed and the combined names are distinct, and the result is then the two lists concatenated. |

## Left out

- `AddFlags` (options.go:84-87) is flag wiring. The flag prefix passed to the sub-option validators is not modelled, because their results enter `Validate` as inputs.
- The validators of the syncer, APIExport, initializing-workspaces and admission options are foreign. Their error lists are parameters of `Validate`.
- The admission plugin registry is foreign. The model stores its listing as a sequence, in the order given. The library lists names sorted, which only the recorded defaults depend on, and those are an input here.
- The library fails fatally when a plugin is registered twice. The model does not capture that: it appends the name, and the lemmas about the enabled plugins assume the virtual plugin was not already registered.
- The library constructor of the admission options sets its own initial plugin order. The model's `AdmissionOptions` constructor starts with empty lists, because `NewOptions` overwrites both.
- `VirtualOptions.EnabledPlugins` stands in for the library's choice of enabled plugins. It encodes the meaning that the comments at options.go:62-68 give to the two lists, not the library's own code.
- The value of the virtual-workspace admission plugin's name: the admission package is not part of this model, so the name is a parameter of `NewOptions`.
- The `Syncer`, `APIExport` and `InitializingWorkspaces` fields of `Options` are foreign option objects. They are not fields of the model's class.
- The two real builders, `APIExport.NewVirtualWorkspaces` and `InitializingWorkspaces.NewVirtualWorkspaces`, are left out, along with the REST config, root path prefix and informer factories they use. Only the builders' results are modelled, as inputs.
- The text of the duplicate error is not modelled: neither the `%q` quoting nor its escaping. The error carries the offending name.
- Go's nil slice and empty slice are both the empty sequence.
- `pkg/server/options/virtual.go` is not part of this model. That covers its `NewVirtual`, `AddFlags`, and its `Validate`, which only gates the call on `Enabled`.
- `cmd/cache-server/main.go` is process plumbing: command setup, option completion, server start, signal handling and exit. It is not part of this model.
- The end-to-end permission-claims test and the claim name/namespace matching it exercises are not part of this model. The matching code lives outside `pkg/virtual/options`, and the test drives a live server.
