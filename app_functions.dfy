/** The web app's route resolution: which top-level view renders a given
    Redux state (`_getRouteToRender`) and the shallow change-detection
    comparison of two routes (`areRoutesEqual`). */
module AppFunctions {
  import opened Views
  import opened JsObjects

  /** Redux namespaces the resolver reads. */
  const UnsupportedBrowserFeature: string := "features/unsupported-browser"
  const ConferenceFeature: string := "features/base/conference"

  /** Platform identifiers on which the landing page is offered. */
  const Android: string := "android"
  const Ios: string := "ios"

  /** A Redux state: each feature's namespace mapped to its sub-state. */
  type ReduxState = map<string, Object>

  /** The resolver's argument: the state itself or the store's `getState`. */
  datatype StateOrGetState =
    | State(state: ReduxState)
    | GetState(getState: () -> ReduxState)

  /** What the resolver consults outside the state: `Platform.OS`, the
      `isRoomValid` check and `RouteRegistry.getRouteByComponent`, which
      answers `None` (`undefined`) for a view with no registered route. */
  datatype Environment = Environment(
    os: string,
    isRoomValid: Value -> bool,
    getRouteByComponent: View -> Option<Object>)

  /** Destructuring a sub-state that is absent from the state throws. */
  datatype Error = TypeError(namespace: string)

  datatype Result<T> = Ok(value: T) | Err(error: Error)

  /** The state the resolver works on: the argument itself, or what calling
      it returns when it is a function. */
  function StateOf(src: StateOrGetState): ReduxState
  {
    match src
    case State(s) => s
    case GetState(getState) => getState()
  }

  function RoomOf(state: ReduxState): Value
    requires ConferenceFeature in state
  {
    Get(state[ConferenceFeature], "room")
  }

  function LandingIsShownOf(state: ReduxState): Value
    requires UnsupportedBrowserFeature in state
  {
    Get(state[UnsupportedBrowserFeature], "landingIsShown")
  }

  predicate IsMobile(os: string)
  {
    os == Android || os == Ios
  }

  /** The view chosen from the room alone, before any platform override. */
  function BaseView(env: Environment, state: ReduxState): View
    requires ConferenceFeature in state
  {
    if env.isRoomValid(RoomOf(state)) then Conference else WelcomePage
  }

  /** The landing page replaces the base view on a mobile platform as long as
      it has not been shown. */
  predicate ShowsLanding(env: Environment, state: ReduxState)
    requires UnsupportedBrowserFeature in state
  {
    IsMobile(env.os) && !Truthy(LandingIsShownOf(state))
  }

  /** Every route the registry holds names, as its `component`, the view it
      is registered for. */
  ghost predicate RegistryConsistent(env: Environment)
  {
    forall v :: env.getRouteByComponent(v).Some? ==>
      Get(env.getRouteByComponent(v).value, "component") == Component(v)
  }

  /** `_getRouteToRender`: a copy of the registry's route for the conference
      page (valid room) or the welcome page (otherwise), whose `component` is
      overwritten with the landing page on a mobile platform that has not
      shown it yet. A missing sub-state makes the destructuring throw; the
      landing sub-state is read first. */
  function GetRouteToRender(env: Environment, stateOrGetState: StateOrGetState): (r: Result<Object>)
    ensures var state := StateOf(stateOrGetState);
      r.Err? <==> UnsupportedBrowserFeature !in state || ConferenceFeature !in state
    ensures var state := StateOf(stateOrGetState);
      r.Err? ==>
        r.error.namespace ==
          (if UnsupportedBrowserFeature !in state then UnsupportedBrowserFeature else ConferenceFeature)
    ensures var state := StateOf(stateOrGetState);
      r.Ok? ==>
        var entry := Spread(env.getRouteByComponent(BaseView(env, state)));
        && Get(r.value, "component") ==
             (if ShowsLanding(env, state) then Component(Landing) else Get(entry, "component"))
        && (forall k :: k != "component" ==> Get(r.value, k) == Get(entry, k))
        && r.value.keys ==
             (if ShowsLanding(env, state) && "component" !in entry.keys
              then entry.keys + ["component"] else entry.keys)
  {
    var state := StateOf(stateOrGetState);
    if UnsupportedBrowserFeature !in state then
      Err(TypeError(UnsupportedBrowserFeature))
    else if ConferenceFeature !in state then
      Err(TypeError(ConferenceFeature))
    else
      var route := Spread(env.getRouteByComponent(BaseView(env, state)));
      if ShowsLanding(env, state) then
        Ok(Put(route, "component", Component(Landing)))
      else
        Ok(route)
  }

  /** A valid room on a platform without the override renders the registry's
      conference route, unchanged. */
  lemma ConferenceWhenRoomValid(env: Environment, s: ReduxState)
    requires UnsupportedBrowserFeature in s && ConferenceFeature in s
    requires env.isRoomValid(RoomOf(s)) && !ShowsLanding(env, s)
    requires RegistryConsistent(env) && env.getRouteByComponent(Conference).Some?
    ensures GetRouteToRender(env, State(s)) == Ok(env.getRouteByComponent(Conference).value)
    ensures Get(GetRouteToRender(env, State(s)).value, "component") == Component(Conference)
  {
  }

  /** An invalid or missing room on a platform without the override renders
      the registry's welcome route, unchanged. */
  lemma WelcomePageWhenRoomInvalid(env: Environment, s: ReduxState)
    requires UnsupportedBrowserFeature in s && ConferenceFeature in s
    requires !env.isRoomValid(RoomOf(s)) && !ShowsLanding(env, s)
    requires RegistryConsistent(env) && env.getRouteByComponent(WelcomePage).Some?
    ensures GetRouteToRender(env, State(s)) == Ok(env.getRouteByComponent(WelcomePage).value)
    ensures Get(GetRouteToRender(env, State(s)).value, "component") == Component(WelcomePage)
  {
  }

  /** On Android or iOS, until the landing page has been shown, the landing
      page is rendered whatever the room, and every other property still
      comes from the route of the view the room selects. */
  lemma LandingOnMobileUntilShown(env: Environment, s: ReduxState)
    requires UnsupportedBrowserFeature in s && ConferenceFeature in s
    requires IsMobile(env.os) && !Truthy(LandingIsShownOf(s))
    ensures GetRouteToRender(env, State(s)).Ok?
    ensures Get(GetRouteToRender(env, State(s)).value, "component") == Component(Landing)
    ensures var base := Spread(env.getRouteByComponent(BaseView(env, s)));
      forall k :: k != "component" ==> Get(GetRouteToRender(env, State(s)).value, k) == Get(base, k)
  {
  }

  /** Once the landing page has been shown, a mobile platform resolves the
      same route as any other platform. */
  lemma NoOverrideOnceLandingShown(env: Environment, s: ReduxState, otherOs: string)
    requires UnsupportedBrowserFeature in s && Truthy(LandingIsShownOf(s))
    ensures GetRouteToRender(env, State(s)) == GetRouteToRender(env.(os := otherOs), State(s))
  {
  }

  /** The route of a view the registry does not hold is `{}`, or
      `{ component: Landing }` when the landing override applies. */
  lemma MissingRegistryEntry(env: Environment, s: ReduxState)
    requires UnsupportedBrowserFeature in s && ConferenceFeature in s
    requires env.getRouteByComponent(BaseView(env, s)).None?
    ensures var r := GetRouteToRender(env, State(s));
      r.Ok? && r.value.keys == (if ShowsLanding(env, s) then ["component"] else [])
    ensures Get(GetRouteToRender(env, State(s)).value, "component") ==
      if ShowsLanding(env, s) then Component(Landing) else Undefined
  {
  }

  /** Passing `() => s` resolves the same route as passing `s`. */
  lemma GetStateSameAsState(env: Environment, s: ReduxState)
    ensures GetRouteToRender(env, GetState(() => s)) == GetRouteToRender(env, State(s))
  {
  }

  /** Room `'abc'` on iOS with the landing page already shown: the conference
      page. */
  lemma IosAfterLandingExample(env: Environment)
    requires env.os == Ios && env.isRoomValid(Str("abc"))
    requires RegistryConsistent(env) && env.getRouteByComponent(Conference).Some?
    ensures var s := map[
        ConferenceFeature := RawObject(["room"], map["room" := Str("abc")]),
        UnsupportedBrowserFeature := RawObject(["landingIsShown"], map["landingIsShown" := Bool(true)])];
      var r := GetRouteToRender(env, State(s));
      r.Ok? && Get(r.value, "component") == Component(Conference)
  {
  }

  /** The same state with the landing page not yet shown, on Android: the
      landing page. */
  lemma AndroidBeforeLandingExample(env: Environment)
    requires env.os == Android
    ensures var s := map[
        ConferenceFeature := RawObject(["room"], map["room" := Str("abc")]),
        UnsupportedBrowserFeature := RawObject(["landingIsShown"], map["landingIsShown" := Bool(false)])];
      var r := GetRouteToRender(env, State(s));
      r.Ok? && Get(r.value, "component") == Component(Landing)
  {
  }

  /** `areRoutesEqual(newRoute, oldRoute)`: every own key of `newRoute` holds
      a value `===` to what `oldRoute` holds under that key (`undefined` when
      it has none). Keys only `oldRoute` has are not looked at. */
  function AreRoutesEqual(newRoute: Object, oldRoute: Object): (r: bool)
    ensures r <==> forall k :: k in newRoute.props ==> StrictEquals(newRoute.props[k], Get(oldRoute, k))
  {
    Every(newRoute.keys, key => StrictEquals(Get(newRoute, key), Get(oldRoute, key)))
  }

  /** `{}` is equal to every route. */
  lemma EmptyRouteEqualsAny(oldRoute: Object)
    ensures AreRoutesEqual(EmptyObject, oldRoute)
  {
  }

  /** A route is equal to itself exactly when none of its values is NaN. */
  lemma AreRoutesEqualReflexive(route: Object)
    ensures AreRoutesEqual(route, route) <==> forall k :: k in route.props ==> !route.props[k].NaN?
  {
  }

  /** A key only the old route has makes the comparison one-sided: whatever
      the old route holds there is ignored, while comparing the other way
      round detects it unless it holds `undefined`. */
  lemma OneSidedWhenOnlyOldHasKey(newRoute: Object, oldRoute: Object, k: string, v: Value)
    requires k !in newRoute.props && k in oldRoute.props && oldRoute.props[k] != Undefined
    ensures !AreRoutesEqual(oldRoute, newRoute)
    ensures AreRoutesEqual(newRoute, oldRoute) == AreRoutesEqual(newRoute, Put(oldRoute, k, v))
  {
  }

  /** So `areRoutesEqual` is not symmetric. */
  lemma AreRoutesEqualNotSymmetric()
    ensures exists a: Object, b: Object :: AreRoutesEqual(a, b) && !AreRoutesEqual(b, a)
  {
    var b: Object := RawObject(["component"], map["component" := Component(Conference)]);
    OneSidedWhenOnlyOldHasKey(EmptyObject, b, "component", Undefined);
    EmptyRouteEqualsAny(b);
  }

  /** Both directions hold exactly when the routes agree, by `===`, on every
      key either of them has. */
  lemma AreRoutesEqualBothWays(a: Object, b: Object)
    ensures AreRoutesEqual(a, b) && AreRoutesEqual(b, a) <==>
      forall k :: k in a.props || k in b.props ==> StrictEquals(Get(a, k), Get(b, k))
  {
  }

  /** On a mobile platform, the route resolved once the landing page has been
      shown differs, for `areRoutesEqual`, from the landing route resolved
      before: dismissing the landing page triggers a navigation. */
  lemma LandingDismissalChangesRoute(env: Environment, before: ReduxState, after: ReduxState)
    requires UnsupportedBrowserFeature in before && ConferenceFeature in before
    requires UnsupportedBrowserFeature in after && ConferenceFeature in after
    requires IsMobile(env.os)
    requires !Truthy(LandingIsShownOf(before)) && Truthy(LandingIsShownOf(after))
    requires RegistryConsistent(env)
    requires env.getRouteByComponent(BaseView(env, after)).Some?
    ensures !AreRoutesEqual(GetRouteToRender(env, State(after)).value,
                            GetRouteToRender(env, State(before)).value)
  {
  }

  /** Without a registered route for the base view after dismissal, the
      dismissal goes unnoticed: the new route is `{}`, which equals any
      route, the landing route before it included. */
  lemma UnregisteredDismissalUndetected(env: Environment, before: ReduxState, after: ReduxState)
    requires UnsupportedBrowserFeature in before && ConferenceFeature in before
    requires UnsupportedBrowserFeature in after && ConferenceFeature in after
    requires IsMobile(env.os)
    requires !Truthy(LandingIsShownOf(before)) && Truthy(LandingIsShownOf(after))
    requires env.getRouteByComponent(BaseView(env, after)).None?
    ensures GetRouteToRender(env, State(after)) == Ok(EmptyObject)
    ensures AreRoutesEqual(GetRouteToRender(env, State(after)).value,
                           GetRouteToRender(env, State(before)).value)
  {
  }
}
