# A Dafny model of the list, intersection and streamed-video core

This project models four pieces of a React component library:

- `classNameCreator`: joins the truthy class arguments with single spaces.
- `useIntersection`: a hook that returns a ref callback and the latest `IntersectionObserverEntry` (use-intersection.tsx:26). The callback attaches an `IntersectionObserver` to the element it receives, and the observer's handler stores the entry.
- `DataListInner`: the headless list. It decides whether to show a shimmer, the empty state or the items. It composes the container class and calls `loadNextPage` when its bottom sentinel intersects and the pagination flags allow it.
- `ViewStreamedVideo`: the player.
  - A HEAD request probes the source's content type.
  - The player then plays natively, through hls.js, or reports the stream as unsupported.
  - Two readiness flags gate `play()` and `onReadyToPlay`.

Modules:

- `ClassNames` and `HeadlessList` are pure. Both are datatypes, functions and lemmas, because the source is expressions over props.
- `Intersection` keeps the hook's state twice:
  - as a value (`HookState`, `SetRefStep`), about which the lemmas speak;
  - as a class `IntersectionHook`, whose methods are proved equal to the value-level steps.
- `StreamedVideo` is a class `ViewStreamedVideo`.
  - Its fields are the component's state, the pending destroyer and the listeners the effects attached.
  - It also records the dependency values each effect last ran with, and a trace of every outward call.
  - A render-and-commit is `Commit`, which runs the three effects in declaration order, each only when its dependencies changed.
  - Browser and network events are methods.
- `Wrappers` holds `Option`.

Encodings:

- DOM elements, observers and hls.js instances are numbered identities.
- Optional props are `Option` values. `isLoading`, `hasNextPage` and `isFetchingNextPage` are dependencies of the list's effect, which React compares with `Object.is`. They are therefore `Option<bool>`, with `undefined` kept apart from `false`, and read through their truthiness where the code tests them. The other optional booleans are `bool` with `undefined` read as false. One of them, `shouldPlay`, is also an effect dependency (viewStreamedVideo.tsx:120). A switch between `undefined` and `false` re-runs that effect, but the run calls nothing, because line 117 needs `shouldPlay` truthy. So `bool` loses no call.

## Model

| member | source | states |
|---|---|---|
| ClassNames.Truthy | src/functions/classNameCreator.ts:2 | defines `Boolean(x)` for the three argument kinds: a non-empty string, `true`; `FilterSingle` and `TruthyTextNonEmpty` state what follows from it |
| ClassNames.Join | src/functions/classNameCreator.ts:3 | defines `join(" ")`, with `true`/`false` written as text and `undefined` as ""; `JoinAppend`, `JoinEmpty` and `JoinSeparators` characterise it |
| ClassNames.Filter | src/functions/classNameCreator.ts:2 | `filter(Boolean)` keeps only truthy arguments, each drawn from the input, never more than the input |
| ClassNames.ClassNameCreator | src/functions/classNameCreator.ts:1-4 | the class string is empty exactly when no argument is truthy |
| ClassNames.FilterAppend | src/functions/classNameCreator.ts:2 | filtering distributes over concatenation, so argument order is kept |
| ClassNames.FilterSingle | src/functions/classNameCreator.ts:2 | one argument survives iff it is truthy (non-empty string or `true`) |
| ClassNames.FilterEmpty | src/functions/classNameCreator.ts:2 | nothing survives iff every argument is falsy |
| ClassNames.FilterIdempotent | src/functions/classNameCreator.ts:2 | filtering twice is filtering once |
| ClassNames.TruthyTextNonEmpty | src/functions/classNameCreator.ts:2-3 | a truthy argument contributes non-empty text |
| ClassNames.JoinEmpty | src/functions/classNameCreator.ts:3 | joining kept parts is empty iff there are none |
| ClassNames.JoinAppend | src/functions/classNameCreator.ts:3 | joining two non-empty runs is joining each with one space between |
| ClassNames.JoinSeparators | src/functions/classNameCreator.ts:3 | a join of n parts holds exactly n-1 separator spaces besides the parts' own, starts with the first part and ends with the last |
| ClassNames.ClassNameAppend | src/functions/classNameCreator.ts:1-4 | when both argument lists hold a truthy argument, the class of their concatenation is their two classes joined by one space |
| ClassNames.ClassNameSingle | src/functions/classNameCreator.ts:1-4 | a single argument yields its text when truthy and "" otherwise |
| ClassNames.ClassNameIdempotent | src/functions/classNameCreator.ts:1-4 | passing the composed class back in as the only argument returns it unchanged |
| ClassNames.InsertFalsy | src/functions/classNameCreator.ts:2 | inserting falsy arguments anywhere does not change the class |
| ClassNames.ClassNameExamples | src/functions/classNameCreator.ts:1-4 | `("a", false, undefined, "b")` gives "a b", no arguments give "", `(true, false)` gives "true" |
| Intersection.Disconnects | src/hooks/use-intersection.tsx:11 | the disconnect guard: a previous element, a different new node, and a captured observer; `SetRefDisconnectsIff` states its effect |
| Intersection.Creates | src/hooks/use-intersection.tsx:16 | the creation guard: a non-null node and an available `IntersectionObserver`; `SetRefCreatesIff` states its effect |
| Intersection.SetRefStep | src/hooks/use-intersection.tsx:10-24 | a `setRef` call keeps every observer it mentions allocated and every live observer observing an element |
| Intersection.ObserveStep | src/hooks/use-intersection.tsx:17-19 | defines one handler delivery, `setEntry(entries[0])`; `ObserveReplacesEntry` states that it changes nothing else |
| Intersection.SetRefAssignsCurrent | src/hooks/use-intersection.tsx:15 | `ref.current` becomes the passed node on every call, null included, and `entry` is untouched |
| Intersection.SetRefCreatesIff | src/hooks/use-intersection.tsx:16-22 | a new observer is created, captured and observes the node iff the node is non-null and `IntersectionObserver` exists; otherwise the captured observer stays and nothing becomes live |
| Intersection.SetRefDisconnectsIff | src/hooks/use-intersection.tsx:11-13 | the captured live observer is disconnected iff a previous element exists and the new node differs from it; no other observer is touched |
| Intersection.DetachDisconnects | src/hooks/use-intersection.tsx:11-16 | `setRef(null)` after an element disconnects the old observer and creates nothing |
| Intersection.SameNodeLeaksObserver | src/hooks/use-intersection.tsx:11-22 | passing the current element again keeps its observer live and adds another one |
| Intersection.SingleObserverPreserved | src/hooks/use-intersection.tsx:10-24 | a call with a different element or null keeps at most one live observer, observing `ref.current` |
| Intersection.SameNodeTwiceHasTwoObservers | src/hooks/use-intersection.tsx:10-24 | the same element twice from mount leaves observers 0 and 1 both live |
| Intersection.SingleObserverAlong | src/hooks/use-intersection.tsx:10-24 | any call sequence that never repeats the current element keeps at most one observer live |
| Intersection.UnavailableNeverObserves | src/hooks/use-intersection.tsx:16 | without `IntersectionObserver` no call sequence creates an observer and `entry` stays null |
| Intersection.ObserveReplacesEntry | src/hooks/use-intersection.tsx:17-19 | a delivery sets `entry` to the first delivered entry and changes nothing else |
| Intersection.IntersectionHook.constructor | src/hooks/use-intersection.tsx:6-8 | on mount `ref.current`, the observer and `entry` are null |
| Intersection.IntersectionHook.SetRef | src/hooks/use-intersection.tsx:10-24 | the in-place update equals `SetRefStep` on the old state and keeps the state well formed |
| Intersection.IntersectionHook.OnIntersection | src/hooks/use-intersection.tsx:17-19 | the in-place update equals `ObserveStep` on the old state |
| HeadlessList.IsInitialShimmerShown | src/components/headlessList.tsx:77 | defines the shimmer flag; `RenderBooleans` states what it shows |
| HeadlessList.IsEmptyStateShown | src/components/headlessList.tsx:78 | defines the empty-state flag; `RenderBooleans` states what it shows |
| HeadlessList.IsListDataShown | src/components/headlessList.tsx:79 | defines the list-data flag; `RenderBooleans` states what it shows |
| HeadlessList.IsFetchMoreLoadingShown | src/components/headlessList.tsx:80 | defines the "Loading..." flag; `RenderBooleans` and `RenderEndsWithSentinel` state what it shows |
| HeadlessList.MapIndexed | src/components/headlessList.tsx:97 | `data.map(children)` has one item per element, `children(data[i], i)` at position i |
| HeadlessList.Body | src/components/headlessList.tsx:93-97 | defines the body regions under the three render flags; `BodyCases` characterises it |
| HeadlessList.Render | src/components/headlessList.tsx:91-101 | defines the container's children in document order; `RenderBooleans`, `RenderStartsWithHeading` and `RenderEndsWithSentinel` characterise it |
| HeadlessList.ContainerClass | src/components/headlessList.tsx:84-88 | defines the container class through `ClassNameCreator`; `ContainerClassSpec` gives the exact string |
| HeadlessList.ClassNameArg | src/components/headlessList.tsx:87 | defines the third argument of `classNameCreator`: an absent `className` is passed as `undefined`, a present one as its string; `ContainerClass` uses it, and `ContainerClassSpec` states its effect: `className` is appended after a space only when it is present and non-empty |
| HeadlessList.RenderBooleans | src/components/headlessList.tsx:77-100 | the render contains the shimmer iff the data is empty and loading, the empty state iff empty and not loading, an item iff the data is non-empty, and the sentinel's "Loading..." iff a next page is fetched without error |
| HeadlessList.ExactlyOneBodyRegion | src/components/headlessList.tsx:77-79 | exactly one of shimmer, empty state and list data is shown, for every input |
| HeadlessList.BodyCases | src/components/headlessList.tsx:93-97 | the body is the shimmer, the empty state, or every element mapped with its index in input order |
| HeadlessList.RenderEndsWithSentinel | src/components/headlessList.tsx:99-101 | every render ends with the single sentinel, whose "Loading..." depends only on fetching, next page and error |
| HeadlessList.RenderStartsWithHeading | src/components/headlessList.tsx:91-97 | the heading is first iff `title` is truthy, and the body follows it up to the sentinel |
| HeadlessList.ContainerClassSpec | src/components/headlessList.tsx:84-88 | the container class is "flex overflow-auto", a space, the direction classes, then `className` after a space when truthy |
| HeadlessList.ComposeThree | src/components/headlessList.tsx:84-88 | two non-empty class strings and a third argument compose to the two, then the third iff it is truthy |
| HeadlessList.On | src/components/headlessList.tsx:72 | defines the truthiness of an optional boolean prop: only `true` is truthy, `undefined` and `false` are not |
| HeadlessList.ShouldLoadNextPage | src/components/headlessList.tsx:72 | defines the effect's guard, reading a null entry as not intersecting; `TriggerExact` states when it leads to a call |
| HeadlessList.DepsOf | src/components/headlessList.tsx:75 | defines the dependency list, which leaves out `hasError`; `HasErrorAloneDoesNotRerun` states the consequence |
| HeadlessList.EffectRuns | src/components/headlessList.tsx:71-75 | defines React's rule: the effect runs on the first render and when a dependency differs; `StableDepsNoRefire` and `LoadCallsBounded` state its consequences |
| HeadlessList.LoadsNextPage | src/components/headlessList.tsx:71-75 | defines whether one render calls `loadNextPage`: the effect runs, the guard at line 72 holds, and `loadNextPage?.()` at line 73 finds a function; `TriggerExact` characterises it |
| HeadlessList.LoadCalls | src/components/headlessList.tsx:71-75 | defines the number of `loadNextPage` calls over a render history; `LoadCallsBounded`, `StableDepsNoRefire` and `UndefinedToFalseRefires` bound and exhibit it |
| HeadlessList.TriggerExact | src/components/headlessList.tsx:71-74 | when the effect runs, `loadNextPage` is called once iff the entry intersects, a next page exists, nothing loads or fetches and there is no error |
| HeadlessList.HasErrorAloneDoesNotRerun | src/components/headlessList.tsx:75 | a change of `hasError` alone does not re-run the effect and causes no call |
| HeadlessList.LoadCallsBounded | src/components/headlessList.tsx:71-75 | over any history, calls never outnumber the renders that changed a dependency |
| HeadlessList.StableDepsNoRefire | src/components/headlessList.tsx:71-75 | while the entry object and the other dependencies stay the same, re-renders never call `loadNextPage` |
| HeadlessList.UndefinedToFalseRefires | src/components/headlessList.tsx:71-75 | `isLoading` going from `undefined` to `false`, with the same intersecting entry and a next page, re-runs the effect and calls `loadNextPage` a second time |
| StreamedVideo.NativePlayable | src/components/viewStreamedVideo.tsx:70 | defines the native test: no probe error, a truthy content type, and `canPlayType` accepting it; `MissingContentTypeLikeError` states a consequence |
| StreamedVideo.ChooseStrategy | src/components/viewStreamedVideo.tsx:63-99 | no element gives the argument-less error; a playable content type gives the native tag; otherwise hls.js when supported, else "unsupported" (each an iff) |
| StreamedVideo.PrepareCalls | src/components/viewStreamedVideo.tsx:63-99 | defines the calls made on each strategy's path; `PrepareEffects` characterises them |
| StreamedVideo.Destroyer | src/components/viewStreamedVideo.tsx:66-99 | defines what `preparePlayOfStreamedVideo` returns: a destroyer only on the hls.js path (lines 93-95), nothing at the returns at lines 66, 78 and 99; `PrepareEffects` states it per strategy |
| StreamedVideo.CleanupCalls | src/components/viewStreamedVideo.tsx:111-113 | defines `destroy?.()`: one `hls.destroy()` when a destroyer is pending, nothing otherwise; `Cleanup` and `MainEffect` state its use |
| StreamedVideo.MainEffectCalls | src/components/viewStreamedVideo.tsx:102-113 | defines one main-effect run: the pending destroyer, then the probe or the preparation; `MainEffect` and `AtMostOnce` state its consequences |
| StreamedVideo.AfterMainEffect | src/components/viewStreamedVideo.tsx:102-113 | defines what a run of the main effect leaves attached: the probe in flight and no destroyer after the first run (lines 105-106, 111-113); otherwise the "loadedmetadata" listener on the native path (line 74), the `new Hls()` identity used up on the hls.js path (line 83), and `destroy` set to the returned destroyer (line 108); `MainEffect`, `PrepareRun` and `Commit` state the new state through it |
| StreamedVideo.PlayCondition | src/components/viewStreamedVideo.tsx:117 | defines the play guard; `PlayImpliesReady` relates it to the ready guard |
| StreamedVideo.ReadyCondition | src/components/viewStreamedVideo.tsx:123 | defines the ready guard; `LoadingUntilReady` and `AtMostOnce` state its consequences |
| StreamedVideo.PlayEffectCalls | src/components/viewStreamedVideo.tsx:116-120 | defines the play effect's call, `play()` only with both flags, `shouldPlay` and the element; `PlayImpliesReady` relates it to the ready effect |
| StreamedVideo.ReadyEffectCalls | src/components/viewStreamedVideo.tsx:122-126 | defines the ready effect's call, `onReadyToPlay` only with both flags; `AtMostOnce` bounds how often it is reached |
| StreamedVideo.LoadingShown | src/components/viewStreamedVideo.tsx:130 | defines the "Loading..." condition; `LoadingUntilReady` relates it to readiness |
| StreamedVideo.MainEffectRun | src/components/viewStreamedVideo.tsx:102-114 | defines the main effect's contribution to a commit: `MainEffectCalls` when `mimeTypeResult` differs from its value at the last run, nothing otherwise; `MainEffect` and `Commit` append it |
| StreamedVideo.PlayEffectRun | src/components/viewStreamedVideo.tsx:116-120 | defines the play effect's contribution: `PlayEffectCalls` when a dependency at line 120 changed, nothing otherwise; `PlayEffect` and `Commit` append it |
| StreamedVideo.ReadyEffectRun | src/components/viewStreamedVideo.tsx:122-126 | defines the ready effect's contribution: `ReadyEffectCalls` when a dependency at line 126 changed, nothing otherwise; `ReadyEffect` and `Commit` append it |
| StreamedVideo.ProbeErrorStillTriesHls | src/components/viewStreamedVideo.tsx:70-98 | a probe error rules out only the native tag: hls.js is still tried |
| StreamedVideo.MissingContentTypeLikeError | src/components/viewStreamedVideo.tsx:54-70 | a response without a usable `Content-Type` takes the same branch as a probe error |
| StreamedVideo.PrepareEffects | src/components/viewStreamedVideo.tsx:63-99 | per strategy: which calls are made, at most one hls.js instance, the destroyer only on the hls.js path, one "unsupported" report |
| StreamedVideo.PlayImpliesReady | src/components/viewStreamedVideo.tsx:116-126 | `play()` is called only where `onReadyToPlay`'s condition holds too |
| StreamedVideo.LoadingUntilReady | src/components/viewStreamedVideo.tsx:130 | without a truthy poster "Loading..." is shown exactly while a flag is unset; with a poster never |
| StreamedVideo.AtMostOnce | src/components/viewStreamedVideo.tsx:102-126 | in every reachable state the trace holds at most one HEAD request, present iff the main effect has run, and at most one `onReadyToPlay`, present iff the ready effect last ran with both flags set |
| StreamedVideo.ViewStreamedVideo.constructor | src/components/viewStreamedVideo.tsx:43-46 | mount state: both flags false, no probe result, nothing attached, empty trace |
| StreamedVideo.ViewStreamedVideo.MainEffect | src/components/viewStreamedVideo.tsx:102-114 | runs only when `mimeTypeResult` changed: the previous destroyer first, then the probe or strategy preparation; the trace's HEAD request count stays tied to the probe counter, so (`AtMostOnce`) the probe is sent at most once |
| StreamedVideo.ViewStreamedVideo.ProbeRun | src/components/viewStreamedVideo.tsx:105-113 | the first run appends the pending destroyer's call and one HEAD request, leaving the probe in flight |
| StreamedVideo.ViewStreamedVideo.PrepareRun | src/components/viewStreamedVideo.tsx:107-113 | a run with a stored result appends the pending destroyer's call and the chosen strategy's calls, replacing the destroyer |
| StreamedVideo.ViewStreamedVideo.StartProbe | src/components/viewStreamedVideo.tsx:48-53 | one HEAD request to `videoSource`, now in flight |
| StreamedVideo.ViewStreamedVideo.PreparePlay | src/components/viewStreamedVideo.tsx:60-100 | the chosen strategy's calls, listener, hls.js instance and returned destroyer |
| StreamedVideo.ViewStreamedVideo.PlayEffect | src/components/viewStreamedVideo.tsx:116-120 | on a change of its three dependencies, `play()` iff both flags, `shouldPlay` and the element |
| StreamedVideo.ViewStreamedVideo.ReadyEffect | src/components/viewStreamedVideo.tsx:122-126 | on a change of its two dependencies, `onReadyToPlay` iff both flags; the trace's `onReadyToPlay` count stays tied to the ready counter, so (`AtMostOnce`) it fires at most once over the component's life |
| StreamedVideo.ViewStreamedVideo.Commit | src/components/viewStreamedVideo.tsx:102-126 | a commit appends the three effects' runs in order; a new `videoSource` alone re-runs nothing; the trace never holds more than one HEAD request or `onReadyToPlay` |
| StreamedVideo.ViewStreamedVideo.ProbeSettled | src/components/viewStreamedVideo.tsx:51-57 | the result (content type or error) is stored and the probe is no longer in flight |
| StreamedVideo.ViewStreamedVideo.LoadedMetadata | src/components/viewStreamedVideo.tsx:74-77 | "loadedmetadata" sets both flags iff the native listener was attached |
| StreamedVideo.ViewStreamedVideo.LoadedData | src/components/viewStreamedVideo.tsx:136 | `onLoadedData` sets only the video flag, on every path |
| StreamedVideo.ViewStreamedVideo.ManifestParsed | src/components/viewStreamedVideo.tsx:86-88 | MANIFEST_PARSED of a live instance sets only the streamer flag |
| StreamedVideo.ViewStreamedVideo.HlsError | src/components/viewStreamedVideo.tsx:89-91 | ERROR of a live instance reports `ErrorInPlayingVideoWithHlsjs` and changes nothing else |
| StreamedVideo.ViewStreamedVideo.VideoTagError | src/components/viewStreamedVideo.tsx:142 | the element's `onError` reports `ErrorInPlayingVideoInVideoTag` |
| StreamedVideo.ViewStreamedVideo.Cleanup | src/components/viewStreamedVideo.tsx:111-113 | the main effect's cleanup, run before its next run and on unmount: the pending destroyer runs, no hls.js instance stays alive, and nothing else changes |
| StreamedVideo.NativeScenario | src/components/viewStreamedVideo.tsx:70-78 | a playable source: probe, `src`, listener, then `play()` (when asked) and `onReadyToPlay`, with no hls.js and no error |
| StreamedVideo.UnsupportedScenario | src/components/viewStreamedVideo.tsx:98-99 | no native playback and no hls.js: one "unsupported" report, the streamer flag never set, neither `play()` nor `onReadyToPlay` |
| StreamedVideo.SourceChangeScenario | src/components/viewStreamedVideo.tsx:102-114 | after hls.js starts, a new `videoSource` neither re-probes nor replaces the instance; only teardown destroys it |

## Left out

- Network I/O: `fetch` becomes the result handed to `ProbeSettled`. Its headers are reduced to the optional `Content-Type`.
- hls.js internals: loading, parsing and media attachment are one `HlsCreate` call. `Hls.isSupported()` and `canPlayType` are inputs in `Env`.
- DOM geometry: `threshold` and `rootMargin` are not modelled. An entry keeps only its identity, its target and `isIntersecting`.
- JSX output: `forwardRef`, `style`, the heading's and wrappers' own classes, `customShimmer` and `emptyStateElement` contents, and the video element's `autoPlay`, `loop`, `muted`, `poster` and `src` attributes. The list's regions are abstract. The `src={videoSource}` attribute (viewStreamedVideo.tsx:137) is left out with a consequence. React sets it on mount, before the first effect, and again on every render whose `videoSource` changed. After a source change the element therefore points at the new URL while the hls.js instance of the old source stays attached. The trace records `AssignSrc` only for line 68, so a trace such as `SourceChangeScenario`'s does not show the element switching to the new source.
- The TypeScript prop unions: the mutual exclusion of `title` and `isReverse`, and of the paginated and plain props. Any combination is accepted. `title` is reduced to its truthiness.
- `data` is always a sequence. A missing `data` is not modelled.
- Concurrency: async races, events after unmount, and the React StrictMode double effect run. Each event is one atomic method call. Events of destroyed hls.js instances are ignored.
- Stale closures: the hls.js ERROR handler (viewStreamedVideo.tsx:89-91) keeps the `onError` of the commit that prepared playback, because the main effect re-runs only on `mimeTypeResult` (line 114). The trace records that `onError` is called, not which function, so the model does not tell a later commit's `onError` apart from the captured one. The same holds for the "loadedmetadata" listener and the hls.js handlers, which are set once and keep their first closures.
- The presence of `onError` and `onReadyToPlay`: the trace records each call site reached, as if both were passed.
- Intersection.ObserveStep: requires a live observer and a non-empty `entries` array, which is what the browser delivers.
- Intersection.IntersectionHook.OnIntersection: has the same precondition as `ObserveStep`.
- StreamedVideo.ViewStreamedVideo.ProbeSettled: requires a probe in flight, since a fetch settles only after it was sent.
- Behaviour of the code that a reader might not expect, which the model keeps as written:
  - The main effect depends only on `mimeTypeResult` (viewStreamedVideo.tsx:114). A new `videoSource` therefore neither resets the readiness flags nor probes again (`SourceChangeScenario`).
  - A probe error rules out only the native tag (viewStreamedVideo.tsx:70). hls.js is still tried when supported (`ProbeErrorStillTriesHls`).
  - The disconnect at use-intersection.tsx:11 is skipped when the same element is passed again, yet lines 16-22 create a new observer. The old one stays live (`SameNodeLeaksObserver`).
  - The pagination effect re-evaluates its guard whenever a dependency at headlessList.tsx:75 changes, including each new `entry` object. It does not fire once per intersection transition (`LoadCallsBounded`, `TriggerExact`).
