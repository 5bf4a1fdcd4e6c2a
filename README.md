# watchy, modelled in Dafny

watchy is a dashboard for Docker containers. A container opts in through
labels under the namespace `ca.wyattjoh.watchy`: `ca.wyattjoh.watchy.enable`
switches it on, and `ca.wyattjoh.watchy.service.<id>.<field>` describes one
service it runs (`name`, `type`, `url`, `tags`, or an overriding `id`).
This project models the logic that turns those labels into service records
and the small state machines around it:

- `Labels` (labels.dfy): the label parser. `ParseLabels` is the source's
  loop over the label entries. It is proved equal to `LabelsConfig`, a left
  fold of `ApplyLabel` over the entries. `Text` (text.dfy) holds the string
  helpers (`startsWith`, `split`, `join`) with their properties.
- `LabelProperties` (label_properties.dfy): what the parser guarantees.
  `LastWriteWins` is a reference description: the last label for each
  flag or field decides it. The module also covers when the parser throws,
  inert labels, and order-insensitivity. It exhibits a key pair on which
  order does matter.
- `ServiceTypes` and `Docker` (service_types.dfy, docker.dfy): the service
  resolver. It covers one container's records, the concatenate-and-sort over
  all containers, the catch-all of `listServices`, and the
  exactly-one-container rule of `getService`.
- `Debounce` (debounce.dfy): the trailing debouncer with a maximum wait. It
  is a class with an integer clock, proved against the transition functions
  `OnCall` and `OnTick`, plus lemmas over runs of events.
- `Events` (events.dfy): the event-subscription loop, with its yields, how it
  exits, and the release of the reader.
- `FormatSeconds`, `FormatName`, `Widgets` (format_seconds.dfy,
  format_name.dfy, widgets.dfy): the display helpers.
- `Configure` (configure.dfy): the configuration form's rules and the labels
  its two templates emit. It proves the generate-then-parse round trip.

Foreign calls become parameters:

- `isUrl: string -> bool` is whether `new URL(value)` succeeds.
- `le: (string, string) -> bool` is `a.localeCompare(b) <= 0`. The sorting
  lemmas assume it is a total preorder.
- `inspect: (string, nat) -> Fetch<ContainerInfo>` gives the outcome of each
  inspect request: `inspect(id, n)` answers the `n`-th request (from 0) made
  while resolving container `id`. It either gives a body or fails in
  transport.
- The container lists that the runtime filters on its side are given as
  inputs.
- The templates' label texts (`key=value`) are read the way the container
  runtime reads them, cut at the first "=" (`Configure.ReadLabel`).
- Time is an explicit integer millisecond clock.

Three consequences of the code that are easy to miss:

- **The debouncer defers a first call.** `lastInvokeTime` starts at
  creation time, so a first call made within `maxWait` of creation is
  scheduled, not run (`Debounce.FirstCallDeferred`). With the defaults,
  calls at 0, 100 and 1200 ms give two runs: at 600 with the arguments of
  the call at 100, and at 1200 with its own (`Debounce.DefaultScenario`).
- **`inspectContainer` is requested once per descriptor**, not once per
  container. Each request has its own answer, which
  `ListContainerServices` counts (`Docker.OneRecordPerDescriptor`,
  `Docker.LaterFailureSurfaces`).
- **An `id` label may set the descriptor id to "".** Only the map keys are
  guaranteed non-empty (`Labels.LabelsConfig`).

## Model

| member | source | states |
|---|---|---|
| `Text.Split` | src/lib/labels.ts:38 | `split(".")` keeps empty segments: there is always at least one part, and no part contains the separator |
| `Text.JoinSplit` | src/lib/labels.ts:89 | joining the parts of a split with the separator gives back the original string |
| `Text.SplitCount` | src/lib/labels.ts:38 | a split has one more part than the string has separators |
| `Labels.TargetOf` | src/lib/labels.ts:36-53 | a key that addresses a field has a non-empty service id and a non-empty field name |
| `Labels.IsBooleanString` | src/lib/labels.ts:17-19 | the type guard accepts exactly "true" and "false", case-sensitively and untrimmed |
| `Labels.SetField` | src/lib/labels.ts:68-93 | a field label changes only its own field. `containerID` never changes. A url changes only when it is a URL. An unknown field name changes nothing |
| `Labels.AssignField` | src/lib/labels.ts:68-93 | the `switch` on the field name updates the descriptor exactly as `SetField` states: only the named field, url only when it is a URL, nothing for an unknown field |
| `Labels.LabelsConfig` | src/lib/labels.ts:27-98 | every successful parse has non-empty service ids, `containerID` equal to the service's own key, only URLs as stored urls, and each id exactly once in the enumeration order |
| `Labels.ErrorPersists` | src/lib/labels.ts:41-43 | once a prefix of the labels throws, the whole parse throws that same error |
| `Labels.ParseLabels` | src/lib/labels.ts:27-98 | the source's loop, which mutates `config` in place and throws on a bad enable value, computes exactly `LabelsConfig` |
| `LabelProperties.EnableIsLastEnableLabel` | src/lib/labels.ts:40-45 | on success, `enable` is true exactly when the last label that addresses the flag says "true", and false when there is none |
| `LabelProperties.ServicesAreAddressed` | src/lib/labels.ts:48-66 | on success, the services are exactly the ids that some well-formed service label addresses, whatever the field, even an unknown one |
| `LabelProperties.DescriptorsAreDescribed` | src/lib/labels.ts:56-93 | on success, each descriptor has, per field, the value of the last label for it: `id` falls back to the service id, `containerID` is the id, url passes the URL filter, tags are the comma split |
| `LabelProperties.LastWriteWins` | src/lib/labels.ts:35-98 | the whole reference description of a successful parse: flag, service set and descriptors |
| `LabelProperties.FailsIffInvalidEnable` | src/lib/labels.ts:40-43 | the parser throws exactly when some enable label has a value other than "true" or "false", and the error carries the first such value |
| `LabelProperties.IgnoredLabelIsInert` | src/lib/labels.ts:36-53 | a label outside the prefix, with the wrong number of segments, or with an empty id or field can be removed without changing the result |
| `LabelProperties.NoPrefixedKeys` | src/lib/labels.ts:28-36 | labels with no key under the prefix give `enable = false` and no services |
| `LabelProperties.OrderInsensitive` | src/lib/labels.ts:35-98 | permuting labels that address pairwise-distinct flags or fields gives the same error, or the same flag, the same descriptor map and the same set of ids |
| `LabelProperties.EnableKey` | src/lib/labels.ts:38-40 | a prefixed key whose text, after the prefix and one more character, is `enable` addresses the flag |
| `LabelProperties.DottedEnableKey` | src/lib/labels.ts:36-40 | `ca.wyattjoh.watchy.enable` addresses the flag |
| `LabelProperties.UndottedEnableKey` | src/lib/labels.ts:36-40 | `ca.wyattjoh.watchy_enable` also addresses the flag, because the prefix test has no dot and one character is dropped whatever it is |
| `LabelProperties.TwoEnableLabels` | src/lib/labels.ts:40-45 | of two valid enable labels, the later one decides the flag |
| `LabelProperties.DistinctKeysNotEnough` | src/lib/labels.ts:35-46 | two distinct keys whose order changes the result: distinct keys alone do not make the parse order-insensitive |
| `LabelProperties.TagsJoinBack` | src/lib/labels.ts:88-89 | a stored tag list is the comma split of some tags label of that service, and joining it with "," gives that label's value back |
| `Docker.CopyHealthLogs` | src/lib/docker.ts:39-44 | same length as the runtime's health log, each entry copied field by field |
| `Docker.HealthLogs` | src/lib/docker.ts:39-44 | absent exactly when the inspected state or its health is absent; otherwise as long as `Health.Log`, with each entry copied field by field |
| `Docker.HasName` | src/lib/docker.ts:21 | the truthiness test on `service.name`: a name is present and is not the empty string |
| `Docker.ServiceRecord` | src/lib/docker.ts:28-45 | the pushed record takes the container's id, status text and the inspected creation time, and the descriptor's id, type, url, tags and non-empty name; status is the inspected `State.Status` and is present exactly when the state is; health is the inspected `State.Health.Status`, present (with its log) exactly when the state has a health |
| `Docker.ListContainerServices` | src/lib/docker.ts:13-49 | the source's loop computes `ContainerServices`, and a non-empty result took exactly one inspect request per record |
| `Docker.InvalidLabelsSurface` | src/lib/docker.ts:14 | a container whose labels throw makes resolution throw the parser's error |
| `Docker.DisabledContributesNothing` | src/lib/docker.ts:14-17 | a container whose labels do not enable it contributes no services |
| `Docker.NamelessVoidsContainer` | src/lib/docker.ts:20-24 | one descriptor without a name, or with the empty name, makes the whole container yield nothing, even if other descriptors are complete, when only the requests for the descriptors before it are answered (the later ones are never made) |
| `Docker.OneRecordPerDescriptor` | src/lib/docker.ts:20-45 | with every descriptor named and every request answered, there is one record per descriptor in map order, with the descriptor's id and name, the container's id and status text, and the state and health log of that descriptor's own inspect request |
| `Docker.InspectFailureSurfaces` | src/lib/docker.ts:26 | a failing first inspect request surfaces as an error when the first descriptor is named; a nameless first descriptor still gives nothing |
| `Docker.LaterFailureSurfaces` | src/lib/docker.ts:20-27 | a request that fails after the earlier ones were answered still makes the resolution throw, and the records already built are dropped |
| `Docker.InsertByName` | src/lib/docker.ts:60-62 | inserting adds exactly the one record to the multiset |
| `Docker.SortByName` | src/lib/docker.ts:60-62 | the sort is a permutation of its input |
| `Docker.SortByNameSorts` | src/lib/docker.ts:60-62 | when the name order is a total preorder, the sort's output is ordered by name |
| `Docker.ContainersServices` | src/lib/docker.ts:51-63 | fails exactly when some container fails, with the first failing container's error; otherwise a permutation of the concatenated per-container records, sorted by name under a total preorder |
| `Docker.ListContainersServices` | src/lib/docker.ts:51-63 | the source's push loop followed by the sort computes `ContainersServices` |
| `Docker.ListServices` | src/lib/docker.ts:128-136 | `[]` when listing fails or any container fails to resolve; otherwise a permutation of all records, sorted by name under a total preorder |
| `Docker.FindById` | src/lib/docker.ts:165 | the index of the first record with the id, or none when no record has it |
| `Docker.GetService` | src/lib/docker.ts:138-172 | null for zero or several containers; the resolver's or the request's error propagates; otherwise non-null exactly when some record has the id, and then it is the first such record |
| `Debounce.Delay` | src/lib/debounce.ts:23 | the timer delay is within Node's range, and equal to `wait` whenever `wait` is in that range |
| `Debounce.DebounceState.OnCall` | src/lib/debounce.ts:9-24 | one call to the closure: clear the timer, then run at once when more than `maxWait` has elapsed, otherwise arm a `Delay(wait)` timer with this call's arguments (its properties are `CallReplacesPending` and `StepKeepsScheduling`) |
| `Debounce.DebounceState.OnTick` | src/lib/debounce.ts:13-16 | the timer callback: a due timer runs the function and sets `lastInvokeTime` to its call's time (its properties are `TickRunsDueTimer` and `StepKeepsScheduling`) |
| `Debounce.Debouncer.constructor` | src/lib/debounce.ts:1-7 | a new debouncer has nothing pending, an empty log, and `lastInvokeTime` set to the creation time |
| `Debounce.Debouncer.WithDefaults` | src/lib/debounce.ts:3-7 | the defaults are `wait = 500` and `maxWait = 1000` |
| `Debounce.Debouncer.Call` | src/lib/debounce.ts:9-25 | a call updates the closure's state as `OnCall` says |
| `Debounce.Debouncer.Tick` | src/lib/debounce.ts:13-16 | the timer firing updates the state as `OnTick` says |
| `Debounce.CallReplacesPending` | src/lib/debounce.ts:18-24 | a call drops what was pending. It runs the function at once exactly when more than `maxWait` has elapsed, which sets `lastInvokeTime` to now and leaves nothing pending. Otherwise, including when the elapsed time equals `maxWait`, it schedules the call's arguments `Delay(wait)` later |
| `Debounce.TickRunsDueTimer` | src/lib/debounce.ts:13-16 | a due timer runs the function with its call's arguments and sets `lastInvokeTime` to that call's time, not the firing time; a timer that is not due changes nothing |
| `Debounce.StepKeepsScheduling` | src/lib/debounce.ts:18-24 | every call and tick keeps the scheduling invariant: a pending timer is due `Delay(wait)` after its call, that call came within `maxWait` of the last invocation, and each run happened at its call or at least `Delay(wait)` after it |
| `Debounce.RunKeepsScheduling` | src/lib/debounce.ts:18-24 | any run of events keeps the scheduling invariant |
| `Debounce.ReachableScheduling` | src/lib/debounce.ts:7 | every state reachable from a fresh debouncer satisfies the scheduling invariant |
| `Debounce.RunsAtMostOncePerCall` | src/lib/debounce.ts:18-24 | the log only grows, and runs logged plus the one pending never exceed the calls made |
| `Debounce.RunsCarryCallArguments` | src/lib/debounce.ts:13-16 | each logged run and the pending timer carry the time and arguments of one of the calls |
| `Debounce.ProvenanceFromCreation` | src/lib/debounce.ts:13-16 | from a fresh debouncer, every run the function makes uses the time and arguments of one of the calls made |
| `Debounce.LastCallDelivered` | src/lib/debounce.ts:20-24 | a call followed by `Delay(wait)` of quiet has run the function with that call's arguments, and nothing is left pending |
| `Debounce.FirstCallDeferred` | src/lib/debounce.ts:7 | a first call within `maxWait` of creation is deferred, not run |
| `Debounce.DefaultScenario` | src/lib/debounce.ts:1-26 | with the defaults, calls at 0, 100 and 1200 and the clock at 600 give exactly two runs: (600, arguments of the call at 100) and (1200, its own arguments) |
| `Events.Subscribe` | src/trpc/routers/events.ts:4-26 | only `true` is yielded, one per chunk read. No read is issued once the abort is observed. The loop stops at the first done read, yielding nothing for it. "ResponseAborted" is swallowed and every other error is rethrown. The reader is released exactly once on every exit |
| `FormatSeconds.RoundDiv` | src/lib/format-seconds.ts:3 | `Math.round(n / d)` for natural `n`: the result is within half of `n / d`, rounding half up |
| `FormatSeconds.RoundingIsUnique` | src/lib/format-seconds.ts:3 | only one natural number is `n / d` rounded half up |
| `FormatSeconds.Choose` | src/lib/format-seconds.ts:1-18 | seconds below 60, minutes below 3600, hours below 86400, days from then on; the amount is the input in that unit, rounded |
| `FormatSeconds.AmountBounds` | src/lib/format-seconds.ts:6-17 | seconds are the input itself, minutes 1 to 60, hours 1 to 24, days at least 1 |
| `FormatSeconds.ShowNat` | src/lib/format-seconds.ts:3 | `toString()` of a natural number: non-empty, digits only, no leading zero |
| `FormatSeconds.ReadShowNat` | src/lib/format-seconds.ts:3 | reading the printed digits back gives the number |
| `FormatSeconds.Format` | src/lib/format-seconds.ts:1-18 | the text is the chosen amount in decimal digits with no leading zero (a lone "0" only for amount 0), followed by the unit letter |
| `FormatSeconds.ThresholdsReached` | src/lib/format-seconds.ts:6-14 | the unit is chosen before rounding: 3599 gives "60m", 86399 gives "24h" |
| `FormatName.StripLeadingSlash` | src/lib/format-name.ts:13 | removes one leading "/" if present and nothing otherwise; the result is a suffix at most one character shorter |
| `FormatName.FormatName` | src/lib/format-name.ts:3-14 | null exactly when there is no name or the first name is empty; otherwise the first name with its leading "/" removed |
| `FormatName.OnlyFirstNameMatters` | src/lib/format-name.ts:8 | containers with the same first name format the same |
| `FormatName.ResultIsSuffix` | src/lib/format-name.ts:13 | the result is a suffix of the first name, equal to it or the first name with the "/" taken off |
| `Widgets.Widgets` | src/components/widgets.tsx:12-31 | health first; exactly `[health]` unless running; when running, plex, sonarr, beszel-hub or radarr appends exactly its widget; length 1 or 2 |
| `Widgets.TypeWidget` | src/components/widgets.tsx:19-27 | the widget a type selects: plex, sonarr, beszel-hub and radarr each their own, any other type none (proved in `TypeWidgetsAreDistinct`) |
| `Widgets.TypeWidgetsAreDistinct` | src/components/widgets.tsx:19-27 | each known type selects its own widget and no other type selects one; "nzbget" and a missing type select none |
| `Configure.FormRules` | src/components/configure-container-button.tsx:28-34 | the empty defaults and one-character texts are refused, 51 characters is too long, a non-empty url must be a URL, and tags are free |
| `Configure.FormValid` | src/components/configure-container-button.tsx:28-34 | a valid form has an id, name and type of 2 to 50 characters each, and its url, when non-empty, is a URL |
| `Configure.ReadLabel` | src/components/configure-container-button.tsx:44-48 | a label text is read as the runtime reads it: the key, which has no "=", runs to the first "=" and the value is the rest, or the whole text with an empty value when there is no "=" |
| `Configure.ReadCutsAtFirstEquals` | src/components/configure-container-button.tsx:44-48 | a text `key=rest` with no "=" in `key` is read as `(key, rest)`, whatever "=" `rest` contains |
| `Configure.TemplateTexts` | src/components/configure-container-button.tsx:44-48 | the five label texts are the source's literals with the id and values filled in, a missing url or tags as the empty value |
| `Configure.ComposeTemplate` | src/components/configure-container-button.tsx:38-49 | the compose entry is keyed by the id, uses the type as its image and the name as its container name, and lists the five label texts the source writes out |
| `Configure.RunTemplate` | src/components/configure-container-button.tsx:51-59 | the command names the container after the name, runs the type as its image, and passes the five label texts the source writes out |
| `Configure.TemplatesAgree` | src/components/configure-container-button.tsx:38-59 | both templates carry the same label texts; a missing url or tags leaves its label with an empty value |
| `Configure.UndottedFieldKey` | src/components/configure-container-button.tsx:45-48 | with an id and field free of ".", the emitted service key addresses that field of that service |
| `Configure.DottedFieldKey` | src/components/configure-container-button.tsx:45 | with a "." in the id, the emitted service key has more than three segments and is ignored |
| `Configure.TemplateRoundTrip` | src/components/configure-container-button.tsx:44-48 | for a non-empty id with no "." or "=", the compose label texts, read as the runtime reads them, parse to an enabled container with exactly the service `data.id`. Its name and type are as in the form, its url is kept exactly when it is a URL, and its tags are the comma split |
| `Configure.ReadTemplate` | src/components/configure-container-button.tsx:44-57 | for an id with no "=", the runtime reads the texts of both templates back as exactly the five template labels |
| `Configure.ValidFormRoundTrip` | src/components/configure-container-button.tsx:51-57 | every valid form whose id has no "." or "=" round-trips through the `docker run` label texts and the parser: name, type and a non-empty url come back |
| `Configure.DottedIdLosesServices` | src/components/configure-container-button.tsx:44-48 | with a "." and no "=" in the id, the labels parse to an enabled container with no services |
| `Configure.EqualsInIdLosesServices` | src/components/configure-container-button.tsx:44-48 | with an id `a=b` where `a` has no "." or "=", the runtime cuts each service label inside the id; the keys it stores have two segments, and the labels parse to an enabled container with no services |

## Left out

- Prototype keys: the source looks up `config.service[serviceID]` on a plain object, so ids such as `constructor` or `__proto__` hit inherited properties. The model's map has no such keys.
- Integer-like keys: JavaScript enumerates an object's integer-like keys first, in ascending order. The label list is taken in the order it is given. `order` assumes insertion order for every service id, so ids such as "10" are not reordered.
- Lengths are counted in characters, not UTF-16 code units. This affects `slice` and zod's `min`/`max`.
- `FormatSeconds.Format`: only natural-number seconds are modelled. Fractions, negative values and floating-point rounding of `seconds / 60` are not.
- The Docker socket transport is not modelled (`fetch`, `listContainers`, `getContainer`, `listAllContainers`, `getEventsStream`). Its results are inputs, and its label filters are left to the runtime.
- `console.warn` and `console.error` logging is not modelled.
- `Docker.SortByName`: the sort is proved to be a permutation, and to be ordered under a total preorder, but not to be stable, although `Array.prototype.sort` is.
- `Docker.GetService`: the `type` argument only shapes the container filter, which is an input here. The unreachable `!container` guard adds nothing.
- Debouncer timing: when a due timer runs is the driver's `Tick`. The event loop, real time and concurrent callers are not modelled. `Delay` models Node's out-of-range clamp.
- `Events.Subscribe`: opening the stream and the reader before the `try` is not modelled. A consumer closing the generator during a `yield` is not modelled. The abort signal is a point in the loop-head sequence, not a concurrent event. A finite `trace` ends in an ended stream (a read past its end is `Done`), so a stream that never ends and is never aborted, where the source loops forever, has no counterpart.
- The template texts themselves (the YAML document and the shell command) are not modelled. Only the label texts are, together with the service key, image and container name. The round trips assume values that need no quoting: a `"`, `$` or `\` in the form's values, or YAML- or shell-special text, is not modelled.
- An id with a "." before its first "=" is not classified: the runtime's cut can then give a three-segment key such as `service.x.y`, which adds service `x` with an unknown field.
- The SSE route (src/app/api/stream/route.ts), the widget API clients, the React components, the tRPC setup and the development store are not modelled. The `getEvents` import in the events router names an export that src/lib/docker.ts does not have, so the reader is an input.
- `ContainerInfo.Config.Labels` is not modelled, because the resolver never reads it.
- Inspect answers: each request's answer is fixed in advance as a function of the container id and the request number. A runtime whose answers depend on timing is not modelled, and two containers with the same id would get the same answers.
