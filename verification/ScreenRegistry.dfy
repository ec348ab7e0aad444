/** The records of `tooling/screen-registry/validate.ts` and what it means for a registry to be well formed. */
module ScreenRegistry {
  import opened Common

  datatype RouteMode = Standalone | Embedded | Contextual | Alias
  datatype Surface = CustomerPwa | MerchantWeb | OperationsWeb | PlatformOperations

  /** A screen; an optional list that is missing is the empty list. */
  datatype Screen = Screen(
    id: string,
    surface: Surface,
    mode: RouteMode,
    route: Option<string>,
    parents: seq<string>,
    allowedFamily: Option<string>,
    aliasOf: Option<string>,
    family: string,
    phase: string,
    featureGate: string,
    permission: string,
    projection: string,
    commands: seq<string>,
    resolved: bool,
    workPackages: seq<string>,
    navigationTargets: seq<string>)

  datatype Catalogs = Catalogs(
    families: set<string>,
    permissions: set<string>,
    projections: set<string>,
    workPackages: set<string>)

  datatype Registry = Registry(catalogs: Catalogs, screens: seq<Screen>)

  /** The messages, one constructor for each wording. */
  datatype Error =
    | SchemaViolation(text: string)
    | DuplicateId(id: string)
    | DuplicateRoute(route: string, prior: string, id: string)
    | InvalidFamily(family: string, id: string)
    | UnknownPermission(permission: string, id: string)
    | UnknownProjection(projection: string, id: string)
    | UnknownWorkPackage(workPackage: string, id: string)
    | MissingWorkPackage(id: string)
    | MissingPhaseOrGate(id: string)
    | MissingParentOrFamily(id: string)
    | InvalidAllowedFamily(family: string, id: string)
    | InvalidParent(parent: string, id: string)
    | BrokenNavigation(target: string, id: string)
    | MissingCommand(id: string)
    | MissingPermission(id: string)
    | SurfaceCollision(surface: Surface, route: string, id: string)
    | UnknownAliasTarget(aliasOf: Option<string>, id: string)
    | AliasCycle(path: seq<string>)

  /** Optional text that is there and not empty. */
  predicate Present(o: Option<string>) { o.Some? && o.value != "" }

  function Prefixes(surface: Surface): set<string> {
    match surface
    case CustomerPwa =>
      {"/menu", "/cart", "/checkout", "/orders", "/account", "/reservations", "/waitlist", "/dine-in"}
    case MerchantWeb => {"/app"}
    case OperationsWeb => {"/operations"}
    case PlatformOperations => {"/platform"}
  }

  predicate OnSurface(route: string, surface: Surface) { exists p <- Prefixes(surface) :: p <= route }

  /** The two letters after the slash tell the prefixes of one surface from those of another. */
  predicate Initials(surface: Surface, a: char, b: char) {
    match surface
    case CustomerPwa =>
      || (a == 'm' && b == 'e') || (a == 'c' && (b == 'a' || b == 'h')) || (a == 'o' && b == 'r')
      || (a == 'a' && b == 'c') || (a == 'r' && b == 'e') || (a == 'w' && b == 'a') || (a == 'd' && b == 'i')
    case MerchantWeb => (a, b) == ('a', 'p')
    case OperationsWeb => (a, b) == ('o', 'p')
    case PlatformOperations => (a, b) == ('p', 'l')
  }

  lemma PrefixesStart(surface: Surface)
    ensures forall p <- Prefixes(surface) :: |p| >= 3 && Initials(surface, p[1], p[2])
  {
  }

  lemma PrefixInitials(route: string, surface: Surface)
    requires OnSurface(route, surface)
    ensures |route| >= 3 && Initials(surface, route[1], route[2])
  {
    var p :| p in Prefixes(surface) && p <= route;
    assert |p| >= 3 && Initials(surface, p[1], p[2]) by { PrefixesStart(surface); }
    assert route[1] == p[1] && route[2] == p[2];
  }

  /** No route is accepted on two surfaces. */
  lemma OneSurface(route: string, a: Surface, b: Surface)
    requires OnSurface(route, a) && OnSurface(route, b)
    ensures a == b
  {
    PrefixInitials(route, a);
    PrefixInitials(route, b);
  }

  function Ids(screens: seq<Screen>): set<string> { set s <- screens :: s.id }

  /** The rules for one screen of a registry. */
  predicate ScreenOk(catalogs: Catalogs, ids: set<string>, s: Screen) {
    && s.family in catalogs.families
    && s.permission in catalogs.permissions
    && s.projection in catalogs.projections
    && (forall w <- s.workPackages :: w in catalogs.workPackages)
    && (s.resolved ==> s.workPackages != [])
    && s.phase != "" && s.featureGate != ""
    && (s.mode.Embedded? || s.mode.Contextual? ==> s.parents != [] || Present(s.allowedFamily))
    && (Present(s.allowedFamily) ==> s.allowedFamily.value in catalogs.families)
    && (forall p <- s.parents :: p in ids)
    && (forall t <- s.navigationTargets :: t in ids)
    && (!s.mode.Alias? ==> s.commands != [] && s.permission != "")
    && (s.mode.Standalone? && Present(s.route) ==> OnSurface(s.route.value, s.surface))
  }

  predicate UniqueIds(screens: seq<Screen>) {
    forall i, j | 0 <= i < j < |screens| :: screens[i].id != screens[j].id
  }

  predicate SameRoute(s: Screen, t: Screen) {
    s.mode.Standalone? && t.mode.Standalone? && Present(s.route) && t.route == s.route
  }

  predicate UniqueRoutes(screens: seq<Screen>) {
    forall i, j | 0 <= i < j < |screens| :: !SameRoute(screens[i], screens[j])
  }

  /** What the validator demands of routes: an owner whose id is empty does not count as one. */
  predicate RoutesOwned(screens: seq<Screen>) {
    forall i, j | 0 <= i < j < |screens| && SameRoute(screens[i], screens[j]) :: screens[i].id == ""
  }

  /** Screens by id; of several with one id the first counts. */
  function ById(screens: seq<Screen>): map<string, Screen> {
    if screens == [] then map[]
    else
      var last, before := screens[|screens| - 1], ById(screens[..|screens| - 1]);
      if last.id in before then before else before[last.id := last]
  }

  lemma {:induction false} ByIdKeys(screens: seq<Screen>)
    ensures ById(screens).Keys == Ids(screens)
    ensures forall id <- ById(screens) :: ById(screens)[id].id == id
  {
    if screens != [] {
      var last, rest := screens[|screens| - 1], screens[..|screens| - 1];
      ByIdKeys(rest);
      assert screens == rest + [last];
      assert Ids(screens) == Ids(rest) + {last.id};
    }
  }

  /** Where ids are unique, a screen is found under its id. */
  lemma {:induction false} ByIdFinds(screens: seq<Screen>, i: nat)
    requires UniqueIds(screens) && i < |screens|
    ensures screens[i].id in ById(screens) && ById(screens)[screens[i].id] == screens[i]
  {
    var rest := screens[..|screens| - 1];
    ByIdKeys(rest);
    if i < |rest| {
      ByIdFinds(rest, i);
    }
  }
}
