# Head plugin model

A Dafny model of the document-head plugin of this Nuxt bridge
(`src/runtime/head/vueuse-head.plugin.ts`). Each component registers a head
descriptor (title, title template, charset, viewport). For each one the
plugin:

- computes an override object from the descriptor and the one title template
  shared by the whole plugin instance;
- hands the resulting head object to the head manager;
- on the client, keeps the live document in step through DOM watchers and
  per-registration unmount hooks.

The model has three modules:

- `Template` (`title_template.dfy`): the string form of a title template.
  `ReplaceAll` replaces every `%s`, left to right and without overlap, the way
  `template.replace(/%s/g, title)` does for a literal title. `Split` and
  `Join` are an independent reference definition of the same operation
  (`split("%s").join(title)`). `Occurrences` counts the placeholders.
- `Head` (`head_overrides.dfy`): the pure computation.
  - The descriptor is a datatype. `Key` records whether the `titleTemplate`
    key is present, since a present key may hold `undefined`.
  - `TitleTemplate` is `Str(s) | Fn(f)`, a string template or a function
    template.
  - JavaScript truthiness is explicit: an empty string is falsy, a function
    is truthy.
  - `DeriveTitle`, `OverrideMeta` and `DeriveOverrides` build the override
    object.
  - `ResolvedTitle` is the title that comes out of the merge with the
    descriptor.
  - `Capture` and `CaptureAll` model how registrations overwrite the shared
    template.
- `Plugin` (`head_plugin.dfy`): the class `HeadPlugin` holds the plugin's
  state:
  - the `headReady` flag and the shared `titleTemplate`;
  - `heads`, the head manager's list of registered head objects, in order;
  - the installed DOM watchers and the pending unmount hooks;
  - `domUpdates`, a count of the DOM updates requested by unmount hooks.

  The methods are the `app:mounted` hook, a registration (`_useHead`) and a
  registration's teardown signal. `PluginScenarios` holds three clients that
  reason only from these contracts.

The shared template is captured as the code does it. Every registration
whose descriptor has the `titleTemplate` key overwrites the template, even
with `undefined`. So the last declaring registration wins, not the first
(lines 22–24).

The functions that model the source are specified by the lemmas beside them:
`Template.ReplaceAll` (line 29) by `ReplaceAllIsSplitJoin`,
`ReplaceAllLength`, `NoPlaceholderUnchanged`,
`FirstPlaceholderReplacedLiterally` and `ReplaceWithPlaceholderIsIdentity`;
`Head.Capture` and `Head.CaptureAll` (lines 22–24) by `LastDeclarationWins`
and `NoDeclarationKeepsTemplate`; `Plugin.RemoveRegistration` (line 51) by
`RemoveRegistrationSplice`, `RemoveRegistrationAbsent` and
`RemoveRegistrationExact`.

## Model

| member | source | states |
|---|---|---|
| `Template.ReplaceAllLength` | src/runtime/head/vueuse-head.plugin.ts:29 | the derived string-template title is as long as the template plus k times (title length − 2), k the number of non-overlapping `%s` |
| `Template.ReplaceAllIsSplitJoin` | src/runtime/head/vueuse-head.plugin.ts:29 | replacing every `%s` equals splitting the template at its placeholders and joining the pieces with the title, so the title is inserted literally |
| `Template.NoPlaceholderUnchanged` | src/runtime/head/vueuse-head.plugin.ts:29 | a template without `%s` comes back unchanged under any title, and its count is zero |
| `Template.PlaceholderCounted` | src/runtime/head/vueuse-head.plugin.ts:29 | a template that holds `%s` has at least one counted occurrence (the converse of the previous row) |
| `Template.FirstPlaceholderReplacedLiterally` | src/runtime/head/vueuse-head.plugin.ts:29 | after a placeholder-free prefix, the first `%s` becomes the title and scanning resumes after it: inserted text is never rescanned |
| `Template.ReplaceWithPlaceholderIsIdentity` | src/runtime/head/vueuse-head.plugin.ts:29 | replacing every `%s` by `%s` gives the template back (split and join are inverse) |
| `Template.SiteTitleExample` | src/runtime/head/vueuse-head.plugin.ts:29 | `"%s - Site"` with the title `"Home"` gives `"Home - Site"` |
| `Template.InsertedTextNotRescannedExample` | src/runtime/head/vueuse-head.plugin.ts:29 | a title that reads `%s` is inserted as it is, not expanded again |
| `Template.LeftmostMatchExample` | src/runtime/head/vueuse-head.plugin.ts:29 | in `%%s` the placeholder found is the last two characters |
| `Head.DeriveTitle` | src/runtime/head/vueuse-head.plugin.ts:28-30 | an override title exists iff a template is set (a function, or a non-empty string) and the raw title is non-empty; a function template is applied to the raw title; a string template gives the split-and-join of the template with the title, of the length above |
| `Head.OverrideMeta` | src/runtime/head/vueuse-head.plugin.ts:27-36 | the override meta list has 0–2 entries; it has a charset entry iff `charset` is non-empty and a viewport entry iff `viewport` is non-empty; each entry carries the descriptor's value; the charset entry comes first, the viewport entry last |
| `Head.DeriveOverrides` | src/runtime/head/vueuse-head.plugin.ts:26-36 | the override object has a title exactly under the condition of line 28, and at most two meta entries |
| `Head.ResolvedTitle` | src/runtime/head/vueuse-head.plugin.ts:37 | in the merged head object the override title wins; with no template set, or an empty or absent raw title, the raw title passes through unchanged |
| `Head.LastDeclarationWins` | src/runtime/head/vueuse-head.plugin.ts:22-24 | after a sequence of registrations, the shared template is the value of the last registration that has the key, `undefined` included |
| `Head.NoDeclarationKeepsTemplate` | src/runtime/head/vueuse-head.plugin.ts:22-24 | registrations without the key leave the shared template as it was |
| `Head.UndefinedTemplateClears` | src/runtime/head/vueuse-head.plugin.ts:22-29 | when the last registration declares `titleTemplate: undefined`, templating is off for every descriptor |
| `Head.SiteOverridesExample` | src/runtime/head/vueuse-head.plugin.ts:26-36 | a page `{title: "Home", titleTemplate: "%s - Site"}` gets the override `{title: "Home - Site", meta: []}` |
| `Head.FunctionTemplateExample` | src/runtime/head/vueuse-head.plugin.ts:29 | a function template is applied to the raw title |
| `Plugin.RemoveRegistrationSplice` | src/runtime/head/vueuse-head.plugin.ts:51 | removing a head object takes out exactly the first entry with its id, and the entries before and after keep their order |
| `Plugin.RemoveRegistrationAbsent` | src/runtime/head/vueuse-head.plugin.ts:51 | removing a head object that is not in the list changes nothing |
| `Plugin.RemoveRegistrationExact` | src/runtime/head/vueuse-head.plugin.ts:50-53 | with distinct, ordered ids, removal loses exactly the one entry with that id, keeps every other entry, and keeps the ids ordered |
| `Plugin.HeadPlugin.constructor` | src/runtime/head/vueuse-head.plugin.ts:8-18 | a new plugin is not ready, has no template and no registrations, watchers, hooks or DOM updates |
| `Plugin.HeadPlugin.HeadObjects` | src/runtime/head/vueuse-head.plugin.ts:26-39 | each registered head object holds the override object and the merged title of its own descriptor under the template that the whole sequence of registrations left (the fold `CaptureAll` over every registered descriptor), so a template declared later reaches earlier registrations |
| `Plugin.HeadPlugin.AppMounted` | src/runtime/head/vueuse-head.plugin.ts:12-16 | the first `app:mounted` installs the mount watcher and sets `headReady`, which never goes back; later signals change nothing; nothing else changes |
| `Plugin.HeadPlugin.Register` | src/runtime/head/vueuse-head.plugin.ts:20-48 | the template is overwritten iff the descriptor has the key; the head object is appended. On the server nothing else happens. On the client, a watcher of the registration's own is installed iff `headReady` was already true, and an unmount hook is scheduled iff an instance is current. `headReady` and the DOM update count are unchanged |
| `Plugin.HeadPlugin.Unmount` | src/runtime/head/vueuse-head.plugin.ts:47-53 | with a pending hook: exactly that head object is removed, the others stay in order, one DOM update is requested and the hook is consumed. Without one, nothing changes, so a second teardown and a registration made without an instance remove nothing |
| `PluginScenarios.ClientWithdrawal` | src/runtime/head/vueuse-head.plugin.ts:20-53 | a page and a component register on the client, then the component's teardown fires: only the page's head object remains, one DOM update was requested, and the page's hook is still pending |
| `PluginScenarios.LateTemplateReachesEarlier` | src/runtime/head/vueuse-head.plugin.ts:22-29 | a page registers `{title: "Home"}`, then a later component registers `{titleTemplate: "%s - Site"}`: the page's head object now has the override title and merged title `"Home - Site"` |
| `PluginScenarios.ServerKeepsEverything` | src/runtime/head/vueuse-head.plugin.ts:39-41 | a server registration schedules no watcher and no unmount hook, so a teardown removes nothing |

## Left out

- Template.ReplaceAll and Head.DeriveTitle: insert the title literally. `String.prototype.replace` would interpret the `$&`, `$$`, `` $` `` and `$'` patterns in a title that contains `$`; those are not modelled, so the `Template` lemmas hold of the literal insertion only.
- Head.ResolvedTitle: of `defu(overrides, meta)` (line 37), only "the override title wins" is modelled. How `defu` merges the override meta list with the descriptor's own arrays is a foreign deep merge whose ordering cannot be seen here.
- Head.DeriveOverrides: states only the presence condition of the title and the size bound of the meta list. The full title and meta properties are on `Head.DeriveTitle` and `Head.OverrideMeta`.
- Vue reactivity is replaced by explicit method calls. This covers `ref`, `computed`, `watchEffect`, `getCurrentInstance` and `onBeforeUnmount`. A current component instance is the `hasInstance` parameter of `Register`. When effects re-run is not modelled, so watchers are only logged. `domUpdates` counts the explicit `updateDOM` call of an unmount hook only.
- A descriptor passed as a reactive getter (`ComputedGetter`) is modelled by its value at registration. Later changes to the getter are not modelled. The key test at line 22 reads only that value anyway.
- The head manager of `@vueuse/head` is a foreign library: `createHead`, `vueApp.use(head)`, `updateDOM`, `renderHeadToString` and the DOM diff. Its list of head objects is modelled as a sequence of registration ids with their descriptors. Removal is modelled as taking out the first entry with that id.
- Server rendering output is not modelled: the `ssrContext.renderMeta` wiring (lines 56–58) and the `process.server` build flag. The flag is the constant `isServer` of the plugin instance.
- Descriptor fields the plugin does not read are not part of `Descriptor`: raw `meta` arrays, links, scripts and the like. They only pass through `defu`. Descriptors of the wrong shape, such as a non-string title, are not modelled.
- Effect-scope disposal is not modelled. A `watchEffect` created while a component instance is current is stopped by Vue when that component unmounts, but `watchers` is an append-only log of installed watchers and `Unmount` leaves a registration's watcher in it.
- A component that made several registrations fires each registration's hook on unmount. `Unmount` models one hook firing.
- `test/bridge.test.ts` and `test/imports.ts` are end-to-end HTTP tests and a static export list. They hold no logic of this plugin.
