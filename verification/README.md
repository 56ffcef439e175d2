# react-native-collapsible in Dafny

A model of the two components of `Collapsible.js`, with proofs about them.

- **Collapsible** is a container whose height animates between `ALMOST_ZERO` (1e-8) when collapsed and the measured content height when expanded. Before it animates, it resolves its `easing` option. A name such as `easeInOutQuad` is split at the first matching prefix of `easeInOut`, `easeOut`, `easeIn` into a direction (`inOut`) and a curve (`quad`). The host easing library then composes the two. A name with none of these prefixes is looked up whole. A name that does not resolve throws.
- **Accordion** keeps one active-section value. Each section's open state is derived from it. Tapping a header toggles that section, and the accordion's options are split between the outer view and the collapsibles.

Modules:

- `Wrappers` (`wrappers.dfy`): `Option` and map lookup.
- `EasingResolver` (`easing.dfy`): decoding of easing names (the function `Decode`, and the loop `DecodeName` proved equal to it), the encoding that decoding inverts, and resolution against the host library (`Resolve`, `ResolveEasing`).
- `CollapsibleComponent` (`collapsible.dfy`): the class `Collapsible`, with its fields `props`, `height`, `contentHeight`, `animating`, `animation` and a ghost log of the calls made on the host animation library. It also holds the pure selections a render makes (`PointerEvents`, `ContentTransform`).
- `AccordionComponent` (`accordion.dfy`): the class `Accordion` with its active section and a ghost log of `onChange` calls. It also holds the per-section view (`RenderSections`) and the option split (`PartitionProps`).

The host library enters only as parameters:

- The easing library is a map from member name to an opaque value. `apply(f, x)` stands for calling member `f` on `x`. It either returns a value (`None` when the value is falsy) or throws.
- `Animated.timing(...).start(cb)` is recorded as a `Start` entry in the log. The value `start` returns is a method parameter, and the component keeps it as its animation handle. `handle.stop()` is recorded as a `Stop` entry.
- The completion callback is the event method `OnAnimationEnd`. A layout pass is `OnLayout`.
- The host's `View.propTypes` keys are the parameter `viewPropTypes`.

Behaviours of the code worth knowing:

- The completion callback ignores its event. `animating` is cleared by any call of the callback, not only by a natural finish (`OnAnimationEnd(finished)` ignores `finished`).
- The animated height is not confined to [ALMOST_ZERO, contentHeight]: `contentHeight` starts at 0, below `ALMOST_ZERO`. What does hold, and is kept as an invariant, is that the seed value of the animated height is either `ALMOST_ZERO` or `contentHeight`.
- Direction and curve names are lower-cased in their first letter: `easeOutCubic` gives `out` and `cubic`.
- `componentWillReceiveProps` runs before the new options are installed. So a toggle animates with the easing and duration in force before the update, and the error quotes the old easing. When resolution throws, React drops the update, so the component keeps its old options.

## Model

| member | source | states |
|---|---|---|
| EasingResolver.Decode | Collapsible.js:45-59 | A name decodes to `Direct(name)` exactly when no table prefix matches it. Otherwise the direction is one of `inOut`, `out`, `in`, and the curve is non-empty with a first letter that is not upper-case. |
| EasingResolver.DecodeFrom | Collapsible.js:47-56 | With the table entries before `i` known not to match, the result is `Direct` exactly when no later entry matches. The direction and curve have the same shape as in `Decode`. |
| EasingResolver.DecodeName | Collapsible.js:46-56 | The `for` loop with `break` over the prefix table computes `Decode`. |
| EasingResolver.DecodeFirstMatch | Collapsible.js:47-55 | The first table entry that is a prefix of the name decides the split. |
| EasingResolver.DecodeTable | Collapsible.js:11-59 | `easeInOut` is tried before `easeOut`, which is tried before `easeIn`. A match gives the direction and the lower-first remainder as the curve, or `ease` when the remainder is empty. No match gives the whole name. |
| EasingResolver.DecodeInOutQuad | Collapsible.js:47-55 | `easeInOutQuad` gives (`inOut`, `quad`), not (`in`, `outQuad`). |
| EasingResolver.DecodeOutCubic | Collapsible.js:47-55 | `easeOutCubic` gives (`out`, `cubic`). |
| EasingResolver.DecodeBareIn | Collapsible.js:50-52 | `easeIn` gives (`in`, `ease`): an empty curve defaults to `ease`. |
| EasingResolver.DecodeLinear | Collapsible.js:57-59 | `linear` matches no prefix and is looked up whole. |
| EasingResolver.DecodeEncode | Collapsible.js:47-52 | Decoding inverts "ease" + Direction + Curve for every direction/curve pair some name spells unambiguously, and is the identity on unprefixed names. |
| EasingResolver.Resolve | Collapsible.js:45-62 | A function value passes through unchanged. Only names can fail. The invalid-easing error quotes the original name. An unprefixed name resolves exactly when the library has that member, and to that member. A missing direction member fails as a call of a non-function, and an exception thrown by the direction member propagates as it is. |
| EasingResolver.ResolveComposite | Collapsible.js:50-62 | A prefixed name resolves to the direction member applied to the curve member (or to `undefined`). If that call throws, its exception propagates. If it returns a falsy value, the invalid-easing error quoting the name is raised. |
| EasingResolver.UnknownCurveAccepted | Collapsible.js:52-62 | The falsy check runs after composition. So a prefixed name with an unknown curve is accepted whenever the direction member returns something for `undefined`. |
| EasingResolver.ResolveEasing | Collapsible.js:45-62 | The resolution steps the toggle runs compute `Resolve`. |
| CollapsibleComponent.WithDefaults | Collapsible.js:25-30 | A given option is kept. A missing one becomes `top` (no transform), `collapsed` (touches off), 300 or `easeOutCubic`. |
| CollapsibleComponent.DefaultEasingDecodes | Collapsible.js:29 | Without an `easing` option, the component animates with the `cubic` curve in direction `out`. |
| CollapsibleComponent.Collapsible.constructor | Collapsible.js:31-35 | The component starts with height `ALMOST_ZERO`, content height 0, not animating, with no handle and no host calls. |
| CollapsibleComponent.Collapsible.ToggleCollapsed | Collapsible.js:41-74 | If easing resolution fails, the error is returned and nothing changes: no stop, no start, `animating` untouched. Otherwise a stored handle is stopped first. Then one start is issued towards exactly `ALMOST_ZERO` (collapsed) or exactly the current content height (expanded), with the current duration and resolved easing. `animating` becomes true and the handle becomes what `start` returned. |
| CollapsibleComponent.Collapsible.ReceiveProps | Collapsible.js:36-40 | The component toggles only when the incoming `collapsed` differs from the current one, using the options in force before the update. With an equal `collapsed` no host call is made. On failure nothing changes. |
| CollapsibleComponent.StartsAndStopsExtend | Collapsible.js:65-73 | Appending "stop the stored handle, then start" keeps the log a run of starts in which every start that returned a handle is stopped just before the next start. So at most one start that returned a handle is left unstopped. |
| CollapsibleComponent.Collapsible.OnAnimationEnd | Collapsible.js:73 | The completion callback clears `animating` whatever its event says. |
| CollapsibleComponent.Collapsible.HandleLayoutChange | Collapsible.js:75-82 | A measurement replaces the content height. The height is reseeded to `ALMOST_ZERO` when collapsed and to the new content height otherwise. |
| CollapsibleComponent.Collapsible.OnLayout | Collapsible.js:107 | While animating, no listener is attached, so neither height changes. Otherwise the measurement is handled as above. |
| CollapsibleComponent.PointerEvents | Collapsible.js:106 | The container takes no touches (`none`) exactly when collapsed, and `auto` otherwise, whatever the animation state. |
| CollapsibleComponent.ContentTransform | Collapsible.js:89-104 | `top` (and any other value) adds no transform. `center` and `bottom` interpolate over [0, contentHeight] into [-contentHeight/2, 0] and [-contentHeight, 0]. |
| CollapsibleComponent.ContentEmergesFromEdge | Collapsible.js:89-104 | At every height, `bottom` keeps the content's bottom edge on the container's bottom edge, and `center` keeps the two centres together. |
| CollapsibleComponent.CenterOffsetExample | Collapsible.js:90-96 | With content height 100, `center` maps height 0 to offset -50 and height 100 to offset 0. |
| CollapsibleComponent.BottomOffsetExample | Collapsible.js:97-103 | With content height 100, `bottom` maps height 0 to offset -100 and height 100 to offset 0. |
| AccordionComponent.Toggled | Collapsible.js:139 | After toggling `k`, section `k` is active exactly when it was not before. Otherwise the value is the `false` sentinel, and no other section is ever made active. |
| AccordionComponent.ToggleTwice | Collapsible.js:138-140 | Toggling a section twice restores its open state, and a "none" value comes back as the `false` sentinel. |
| AccordionComponent.Accordion.constructor | Collapsible.js:134-136 | The active section starts as the initial section, or as `undefined` when none is given. |
| AccordionComponent.Accordion.ToggleSection | Collapsible.js:138-144 | The active section is toggled. When the options in force at the tap include an observer, `onChange` is called exactly once with the new value; otherwise it is not called. |
| AccordionComponent.RenderSections | Collapsible.js:159-166 | Section `k` reports `isActive` exactly when the active value is `k`. Its collapsible gets `collapsed = !isActive`, unless the accordion was given `collapsed`, which is spread later and wins. |
| AccordionComponent.CountActiveFrom | Collapsible.js:162-165 | Over consecutive sections, the number reporting `isActive` is 1 if the active value names one of them, and 0 otherwise. |
| AccordionComponent.ActiveSectionCount | Collapsible.js:159-165 | Exactly one section is active when the active value names one of the sections. Otherwise none is, so at most one ever is. |
| AccordionComponent.PassedCollapsedOverrides | Collapsible.js:164 | A `collapsed` given to the accordion reaches every section's collapsible unchanged, so mutual exclusion no longer reaches the children. |
| AccordionComponent.PartitionProps | Collapsible.js:147-155 | The keys a collapsible declares (checked first) go only to the collapsible options, and other keys the view declares go only to the view options. Every other key is dropped, and kept values are copied unchanged. |

## Left out

- Rendering, JSX, the touchable wrapper, React's lifecycle scheduling and `setState` batching. State updates take effect at once.
- The easing curves themselves, `Animated.timing`, and what `start` and `stop` do. Whether `stop` fires the completion callback is not modelled: `OnAnimationEnd` can be called at any time.
- The interpolation the host performs. `Lerp` is its linear reading inside the input range. Extrapolation, and the degenerate range [0, 0] while the content height is still 0, are not modelled.
- Time, durations and the order in which asynchronous completions and layout passes arrive. Completion and layout are event methods called by the environment.
- The contents of the host view's prop types, which are a parameter. The section data and the `renderHeader`/`renderContent` callbacks are opaque: the model gives only the `isActive` argument they receive and the section count.
- Prop-type validation, `underlayColor`, and the application of default options (the constructor receives complete options; the defaults are named constants).
- The model's `ToLower` handles ASCII letters only. The Unicode case mapping of JavaScript's `toLowerCase` is not modelled.
- The easing library is a map of its truthy own members. Inherited object properties and falsy members are not modelled. A non-string easing is always an opaque function value.
- An animation whose `start` returned nothing (a falsy value) is never stopped by the component, since only a truthy stored handle is stopped. The model records this but promises nothing about such animations still running.
- The thrown message text. The error value carries the quoted easing name.
- Numbers are real numbers: no NaN or infinities, and non-integer section indices are not modelled.
