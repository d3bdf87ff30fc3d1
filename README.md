# Route resolution of the Jitsi Meet web app

A Dafny model of the route resolver in `react/features/app/functions.web.js`:

- `_getRouteToRender` picks the top-level view from the Redux state. A valid
  room gives the conference page and anything else gives the welcome page.
  It then copies that view's route out of the route registry. On Android or
  iOS, while the landing page has not been shown, it overwrites the copy's
  `component` with the landing page. It accepts the state or the store's
  `getState`.
- `areRoutesEqual(newRoute, oldRoute)` is a shallow, one-sided change
  detector. It checks with `===` that every own key of `newRoute` holds the
  same value in `oldRoute`.

`js_objects.dfy` holds the views (module `Views`) and the JavaScript behaviour
the code depends on (module `JsObjects`): values, including `undefined` and
NaN; plain objects with their keys in insertion order; property read and
assignment; object spread; `===`; truthiness; `Array.prototype.every`.
`app_functions.dfy` (module `AppFunctions`) holds the two functions and the
properties proved about them.

`Platform.OS`, `isRoomValid` and `RouteRegistry.getRouteByComponent` are
fields of an `Environment` parameter. Their code is not part of this model.
`getRouteByComponent` answers `None` (JavaScript `undefined`) for a view that
has no registered route. The lemmas that conclude the conference or welcome
page, and the one about detecting the landing page's dismissal, assume
`RegistryConsistent`: every registered route's `component` is the view it is
registered under.

A sub-state missing from the Redux state makes the destructuring at lines
37-38 throw a `TypeError`. The model returns `Err(TypeError(namespace))`,
naming the first missing namespace in the source's reading order.

`areRoutesEqual`'s doc comment says "if and only if key values of the first
object are equal to key values of the second one". The code compares only
the keys of the first object. `AreRoutesEqualNotSymmetric` and
`OneSidedWhenOnlyOldHasKey` show that the comparison is one-sided, and
`AreRoutesEqualBothWays` states what two-way equality means. The model
follows the code.

## Model

| member | source | states |
|---|---|---|
| JsObjects.Every | react/features/app/functions.web.js:63-64 | `xs.every(p)`, which stops at the first rejected element, is true exactly when `p` holds of every element |
| JsObjects.Put | react/features/app/functions.web.js:47 | after `o.key = v`, reading `key` gives `v`, every other key reads as before, and a new key is appended to the key order |
| JsObjects.Spread | react/features/app/functions.web.js:44 | `{ ...src }` has the source's keys in the same order with the same values; spreading `undefined` gives `{}` |
| JsObjects.Truthy | react/features/app/functions.web.js:46 | `!x` is true exactly for `undefined`, `null`, NaN, `false`, `0` and `''` |
| JsObjects.StrictEqualsReflexive | react/features/app/functions.web.js:64 | `x === x` holds for every value except NaN |
| JsObjects.StrictEqualsSymmetric | react/features/app/functions.web.js:64 | `x === y` exactly when `y === x` |
| AppFunctions.GetRouteToRender | react/features/app/functions.web.js:29-51 | throws exactly when a sub-state is missing, naming the one read first; otherwise the route is the base view's registry route, except that `component` is the landing page when the override applies; the only key that can be added is `component`, at the end |
| AppFunctions.ConferenceWhenRoomValid | react/features/app/functions.web.js:39-50 | a valid room without the mobile override renders the registry's conference route unchanged, with `component` the conference page |
| AppFunctions.WelcomePageWhenRoomInvalid | react/features/app/functions.web.js:39-50 | an invalid room without the mobile override renders the registry's welcome route unchanged, with `component` the welcome page |
| AppFunctions.LandingOnMobileUntilShown | react/features/app/functions.web.js:36-48 | on Android or iOS with `landingIsShown` falsy, `component` is the landing page whatever the room, and all other keys come from the base view's route |
| AppFunctions.NoOverrideOnceLandingShown | react/features/app/functions.web.js:36-48 | once `landingIsShown` is truthy, the platform makes no difference to the route |
| AppFunctions.MissingRegistryEntry | react/features/app/functions.web.js:44-48 | an unregistered base view gives `{}`, or `{ component: Landing }` when the override applies |
| AppFunctions.GetStateSameAsState | react/features/app/functions.web.js:31-34 | passing `() => s` gives the same result as passing `s` |
| AppFunctions.IosAfterLandingExample | react/features/app/functions.web.js:29-51 | room `'abc'` on iOS with the landing page already shown renders the conference page |
| AppFunctions.AndroidBeforeLandingExample | react/features/app/functions.web.js:29-51 | room `'abc'` on Android with the landing page not shown renders the landing page |
| AppFunctions.AreRoutesEqual | react/features/app/functions.web.js:62-65 | true exactly when every key of `newRoute` holds a value `===` to `oldRoute`'s value at that key (`undefined` when missing) |
| AppFunctions.EmptyRouteEqualsAny | react/features/app/functions.web.js:62-65 | `{}` equals every route |
| AppFunctions.AreRoutesEqualReflexive | react/features/app/functions.web.js:62-65 | a route equals itself exactly when none of its values is NaN |
| AppFunctions.OneSidedWhenOnlyOldHasKey | react/features/app/functions.web.js:53-65 | for any new route that lacks a key the old route has with a defined value: whatever the old route holds there leaves `areRoutesEqual(new, old)` unchanged, while `areRoutesEqual(old, new)` is false |
| AppFunctions.AreRoutesEqualNotSymmetric | react/features/app/functions.web.js:53-65 | there are routes `a`, `b` with `areRoutesEqual(a, b)` and not `areRoutesEqual(b, a)` |
| AppFunctions.AreRoutesEqualBothWays | react/features/app/functions.web.js:53-65 | the comparison holds both ways exactly when the routes agree by `===` on every key either of them has |
| AppFunctions.LandingDismissalChangesRoute | react/features/app/functions.web.js:46-48 | on a mobile platform, when the registry is consistent and the base view after dismissal is registered, the route after the landing page has been shown is not equal to the landing route before it, so the change is detected |
| AppFunctions.UnregisteredDismissalUndetected | react/features/app/functions.web.js:44-48 | on a mobile platform with no registered route for the base view after dismissal, the route after dismissal is `{}`, which `areRoutesEqual` finds equal to the landing route before it, so the change goes unnoticed |

## Left out

- `init` (lines 73-86): it sets `APP.keyboardshortcut` and `APP.tokenData`, and calls the URL processor, `_initLogging`, the token-data reader, `APP.API.init` and `APP.translation.init`. None of these is part of this model.
- `_configureLoggingLevels` and `_initLogging` (lines 94-141): they configure external logging libraries, print to the console and register global log transports.
- The re-export of `_getRoomAndDomainFromUrlString` (line 19): `functions.native` is not part of this model.
- The rules of `isRoomValid` and the registry's internals: the `Environment` parameter stands for them.
- That the registry is never modified: in this value model a route is a value, so the copy at line 44 can never alias the registry's route. The model gives this by construction and does not prove it, because object identity is not modelled.
- Numbers: only integers and NaN are represented. Other floating-point values are not, and `+0 === -0` has only one zero to compare.
- Property reads see own properties only. A key such as `toString` inherited through the prototype chain reads as `undefined`.
- Arguments that are not objects: `stateOrGetState`, and what `getState` returns, are always a state object, and both routes given to `areRoutesEqual` are always objects, as the JSDoc types say. Passing `null` or `undefined` there throws a `TypeError` (at line 37, or at lines 63-64), which the model's types cannot express.
- Sub-states: each sub-state is a plain object. A `null` sub-state, which would also throw, and a primitive sub-state, which would read as `undefined`, are not represented.
- `Object.keys` puts integer-like keys first. The model keeps plain insertion order, which does not change the result of `areRoutesEqual`.
