/** `validateRegistry` of `tooling/screen-registry/validate.ts`, and what its verdict means. */
module ScreenValidator {
  import opened Common
  import opened ScreenRegistry
  import opened AliasGraph

  // ------------------------------------------------------- the errors, in order

  function If(condition: bool, e: Error): seq<Error> { if condition then [e] else [] }

  /** The routes taken so far, each with the id of the screen that took it. */
  function Owners(screens: seq<Screen>): map<string, string> {
    if screens == [] then map[]
    else
      var last, before := screens[|screens| - 1], Owners(screens[..|screens| - 1]);
      if last.mode.Standalone? && Present(last.route) && !Taken(before, last.route.value)
      then before[last.route.value := last.id]
      else before
  }

  predicate Taken(owners: map<string, string>, route: string) { route in owners && owners[route] != "" }

  /** The errors of the loop that fills both maps. */
  function IndexErrors(screens: seq<Screen>): seq<Error> {
    if screens == [] then []
    else
      var last, rest := screens[|screens| - 1], screens[..|screens| - 1];
      IndexErrors(rest) + IndexErrorsOf(ById(rest), Owners(rest), last)
  }

  function IndexErrorsOf(byId: map<string, Screen>, owners: map<string, string>, s: Screen): seq<Error> {
    If(s.id in byId, DuplicateId(s.id)) +
    (if s.mode.Standalone? && Present(s.route) && Taken(owners, s.route.value)
     then [DuplicateRoute(s.route.value, owners[s.route.value], s.id)] else [])
  }

  datatype Reference = WorkPackage | Parent | Target

  function RefError(kind: Reference, ref: string, id: string): Error {
    match kind
    case WorkPackage => UnknownWorkPackage(ref, id)
    case Parent => InvalidParent(ref, id)
    case Target => BrokenNavigation(ref, id)
  }

  function Missing(kind: Reference, refs: seq<string>, known: set<string>, id: string): seq<Error> {
    if refs == [] then []
    else
      var last := refs[|refs| - 1];
      Missing(kind, refs[..|refs| - 1], known, id) + If(last !in known, RefError(kind, last, id))
  }

  function CatalogErrors(c: Catalogs, s: Screen): seq<Error> {
    If(s.family !in c.families, InvalidFamily(s.family, s.id)) +
    If(s.permission !in c.permissions, UnknownPermission(s.permission, s.id)) +
    If(s.projection !in c.projections, UnknownProjection(s.projection, s.id))
  }

  function PlacementErrors(c: Catalogs, s: Screen): seq<Error> {
    If(s.resolved && s.workPackages == [], MissingWorkPackage(s.id)) +
    If(s.phase == "" || s.featureGate == "", MissingPhaseOrGate(s.id)) +
    If((s.mode.Embedded? || s.mode.Contextual?) && s.parents == [] && !Present(s.allowedFamily),
       MissingParentOrFamily(s.id)) +
    (if Present(s.allowedFamily) && s.allowedFamily.value !in c.families
     then [InvalidAllowedFamily(s.allowedFamily.value, s.id)] else [])
  }

  function ActionErrors(s: Screen): seq<Error> {
    If(!s.mode.Alias? && s.commands == [], MissingCommand(s.id)) +
    If(!s.mode.Alias? && s.permission == "", MissingPermission(s.id)) +
    (if s.mode.Standalone? && Present(s.route) && !OnSurface(s.route.value, s.surface)
     then [SurfaceCollision(s.surface, s.route.value, s.id)] else [])
  }

  function ReferenceErrors(c: Catalogs, ids: set<string>, s: Screen): seq<Error> {
    Missing(Parent, s.parents, ids, s.id) + Missing(Target, s.navigationTargets, ids, s.id)
  }

  function ScreenErrors(c: Catalogs, ids: set<string>, s: Screen): seq<Error> {
    CatalogErrors(c, s) +
    (Missing(WorkPackage, s.workPackages, c.workPackages, s.id) +
     (PlacementErrors(c, s) + (ReferenceErrors(c, ids, s) + ActionErrors(s))))
  }

  function AllScreenErrors(c: Catalogs, ids: set<string>, screens: seq<Screen>): seq<Error> {
    if screens == [] then []
    else AllScreenErrors(c, ids, screens[..|screens| - 1]) + ScreenErrors(c, ids, screens[|screens| - 1])
  }

  function SchemaErrors(texts: seq<string>): seq<Error> {
    seq(|texts|, i requires 0 <= i < |texts| => SchemaViolation(texts[i]))
  }

  function IdList(screens: seq<Screen>): seq<string> {
    seq(|screens|, i requires 0 <= i < |screens| => screens[i].id)
  }

  /** The errors before the search for alias cycles. */
  function RecordErrors(r: Registry, schema: seq<string>): seq<Error> {
    SchemaErrors(schema) + IndexErrors(r.screens) + AllScreenErrors(r.catalogs, ById(r.screens).Keys, r.screens)
  }

  function AllErrors(r: Registry, schema: seq<string>): seq<Error> {
    VisitAll(ById(r.screens), Visits(map[], RecordErrors(r, schema)), IdList(r.screens)).errors
  }

  // ---------------------------------------------------------- what they mean

  /** A registry with which nothing is wrong in the eyes of the validator. */
  ghost predicate WellFormed(r: Registry) {
    && UniqueIds(r.screens)
    && RoutesOwned(r.screens)
    && ScreensOk(r.catalogs, Ids(r.screens), r.screens)
    && (forall s <- r.screens :: Resolves(ById(r.screens), s.id))
  }

  lemma {:induction false} MissingNone(kind: Reference, refs: seq<string>, known: set<string>, id: string)
    ensures Missing(kind, refs, known, id) == [] <==> forall ref <- refs :: ref in known
    ensures NoneAlias(Missing(kind, refs, known, id))
  {
    if refs != [] {
      MissingNone(kind, refs[..|refs| - 1], known, id);
      assert refs == refs[..|refs| - 1] + [refs[|refs| - 1]];
    }
  }

  lemma NoneAliasConcat(a: seq<Error>, b: seq<Error>)
    requires NoneAlias(a) && NoneAlias(b)
    ensures NoneAlias(a + b)
  {
  }

  lemma CatalogErrorsNone(c: Catalogs, s: Screen)
    ensures NoneAlias(CatalogErrors(c, s))
    ensures CatalogErrors(c, s) == [] <==>
            s.family in c.families && s.permission in c.permissions && s.projection in c.projections
  {
  }

  lemma PlacementErrorsNone(c: Catalogs, s: Screen)
    ensures NoneAlias(PlacementErrors(c, s))
    ensures PlacementErrors(c, s) == [] <==>
            && (s.resolved ==> s.workPackages != [])
            && s.phase != "" && s.featureGate != ""
            && (s.mode.Embedded? || s.mode.Contextual? ==> s.parents != [] || Present(s.allowedFamily))
            && (Present(s.allowedFamily) ==> s.allowedFamily.value in c.families)
  {
  }

  lemma ActionErrorsNone(s: Screen)
    ensures NoneAlias(ActionErrors(s))
    ensures ActionErrors(s) == [] <==>
            && (!s.mode.Alias? ==> s.commands != [] && s.permission != "")
            && (s.mode.Standalone? && Present(s.route) ==> OnSurface(s.route.value, s.surface))
  {
  }

  lemma ReferenceErrorsNone(c: Catalogs, ids: set<string>, s: Screen)
    ensures NoneAlias(ReferenceErrors(c, ids, s))
    ensures ReferenceErrors(c, ids, s) == [] <==>
            (forall p <- s.parents :: p in ids) && forall t <- s.navigationTargets :: t in ids
  {
    MissingNone(Parent, s.parents, ids, s.id);
    MissingNone(Target, s.navigationTargets, ids, s.id);
  }

  lemma ScreenErrorsNone(c: Catalogs, ids: set<string>, s: Screen)
    ensures ScreenErrors(c, ids, s) == [] <==> ScreenOk(c, ids, s)
    ensures NoneAlias(ScreenErrors(c, ids, s))
  {
    CatalogErrorsNone(c, s);
    MissingNone(WorkPackage, s.workPackages, c.workPackages, s.id);
    PlacementErrorsNone(c, s);
    ReferenceErrorsNone(c, ids, s);
    ActionErrorsNone(s);
    var refs, actions := ReferenceErrors(c, ids, s), ActionErrors(s);
    var packages, placement := Missing(WorkPackage, s.workPackages, c.workPackages, s.id), PlacementErrors(c, s);
    NoneAliasConcat(refs, actions);
    NoneAliasConcat(placement, refs + actions);
    NoneAliasConcat(packages, placement + (refs + actions));
    NoneAliasConcat(CatalogErrors(c, s), packages + (placement + (refs + actions)));
  }

  ghost predicate ScreensOk(c: Catalogs, ids: set<string>, screens: seq<Screen>) {
    forall s <- screens :: ScreenOk(c, ids, s)
  }

  /** The errors are those of screens alone, and there are none exactly when all screens are in order. */
  ghost predicate Screened(c: Catalogs, ids: set<string>, screens: seq<Screen>, errors: seq<Error>) {
    NoneAlias(errors) && (errors == [] <==> ScreensOk(c, ids, screens))
  }

  lemma {:induction false} AllScreenErrorsNone(c: Catalogs, ids: set<string>, screens: seq<Screen>)
    ensures Screened(c, ids, screens, AllScreenErrors(c, ids, screens))
  {
    if screens == [] {
      assert ScreensOk(c, ids, []);
    } else {
      var rest, last := screens[..|screens| - 1], screens[|screens| - 1];
      AllScreenErrorsNone(c, ids, rest);
      assert screens == rest + [last];
      assert Screened(c, ids, screens, AllScreenErrors(c, ids, rest) + ScreenErrors(c, ids, last)) by {
        OneMoreScreen(c, ids, rest, last, AllScreenErrors(c, ids, rest));
      }
    }
  }

  lemma OneMoreScreen(c: Catalogs, ids: set<string>, rest: seq<Screen>, last: Screen, errors: seq<Error>)
    requires Screened(c, ids, rest, errors)
    ensures Screened(c, ids, rest + [last], errors + ScreenErrors(c, ids, last))
  {
    ScreenErrorsNone(c, ids, last);
    NoneAliasConcat(errors, ScreenErrors(c, ids, last));
    ScreensOkMore(c, ids, rest, last);
  }

  lemma ScreensOkMore(c: Catalogs, ids: set<string>, rest: seq<Screen>, last: Screen)
    ensures ScreensOk(c, ids, rest + [last]) <==> ScreensOk(c, ids, rest) && ScreenOk(c, ids, last)
  {
    forall s ensures s in rest + [last] <==> s in rest || s == last {}
  }

  predicate Claims(s: Screen, route: string) {
    s.mode.Standalone? && s.route == Some(route) && route != "" && s.id != ""
  }

  predicate Claimed(screens: seq<Screen>, route: string) { exists s <- screens :: Claims(s, route) }

  lemma ClaimedMore(rest: seq<Screen>, last: Screen, route: string)
    ensures Claimed(rest + [last], route) <==> Claimed(rest, route) || Claims(last, route)
  {
    forall s ensures s in rest + [last] <==> s in rest || s == last {}
  }

  /** A route is taken once a screen with a non-empty id has it. */
  lemma {:induction false} TakenIff(screens: seq<Screen>, route: string)
    ensures Taken(Owners(screens), route) <==> Claimed(screens, route)
  {
    if screens != [] {
      var rest, last := screens[..|screens| - 1], screens[|screens| - 1];
      TakenIff(rest, route);
      ClaimedMore(rest, last, route);
      assert screens == rest + [last];
    }
  }

  /** The errors are those of ids and routes alone, and there are none exactly when both are as they should be. */
  ghost predicate Indexed(screens: seq<Screen>, errors: seq<Error>) {
    NoneAlias(errors) && (errors == [] <==> UniqueIds(screens) && RoutesOwned(screens))
  }

  lemma {:induction false} IndexErrorsNone(screens: seq<Screen>)
    ensures Indexed(screens, IndexErrors(screens))
  {
    if screens != [] {
      var rest, last := screens[..|screens| - 1], screens[|screens| - 1];
      IndexErrorsNone(rest);
      assert screens == rest + [last];
      assert Indexed(screens, IndexErrors(rest) + IndexErrorsOf(ById(rest), Owners(rest), last)) by {
        OneMoreIndexed(rest, last, IndexErrors(rest));
      }
    }
  }

  lemma OneMoreIndexed(rest: seq<Screen>, last: Screen, errors: seq<Error>)
    requires Indexed(rest, errors)
    ensures Indexed(rest + [last], errors + IndexErrorsOf(ById(rest), Owners(rest), last))
  {
    NewIdIff(rest, last);
    NewRouteIff(rest, last);
    NoneAliasConcat(errors, IndexErrorsOf(ById(rest), Owners(rest), last));
  }

  lemma NewIdIff(rest: seq<Screen>, last: Screen)
    ensures UniqueIds(rest + [last]) <==> UniqueIds(rest) && last.id !in ById(rest)
  {
    ByIdKeys(rest);
    var all := rest + [last];
    if UniqueIds(all) {
      forall i, j | 0 <= i < j < |rest| ensures rest[i].id != rest[j].id { assert all[i].id != all[j].id; }
      forall i | 0 <= i < |rest| ensures rest[i].id != last.id { assert all[i].id != all[|rest|].id; }
    }
  }

  lemma NewRouteIff(rest: seq<Screen>, last: Screen)
    ensures RoutesOwned(rest + [last]) <==>
            && RoutesOwned(rest)
            && !(last.mode.Standalone? && Present(last.route) && Taken(Owners(rest), last.route.value))
  {
    var all := rest + [last];
    if Present(last.route) { TakenIff(rest, last.route.value); }
    forall i | 0 <= i < |rest| ensures all[i] == rest[i] && rest[i] in rest {}
    if RoutesOwned(all) {
      forall i, j | 0 <= i < j < |rest| && SameRoute(rest[i], rest[j]) ensures rest[i].id == "" {
        assert SameRoute(all[i], all[j]);
      }
      forall i | 0 <= i < |rest| && SameRoute(rest[i], last) ensures rest[i].id == "" {
        assert SameRoute(all[i], all[|rest|]);
      }
    }
  }

  /** The verdict: no errors exactly when the schema is met and the registry is well formed. */
  lemma Verdict(r: Registry, schema: seq<string>)
    ensures AllErrors(r, schema) == [] <==> schema == [] && WellFormed(r)
  {
    var g, before := ById(r.screens), RecordErrors(r, schema);
    ByIdKeys(r.screens);
    RecordErrorsClean(r, schema);
    IdListKeys(r.screens);
    NoAliasErrors(g, before, IdList(r.screens));
    assert (forall x <- g :: Resolves(g, x)) <==> forall s <- r.screens :: Resolves(g, s.id);
  }

  lemma RecordErrorsClean(r: Registry, schema: seq<string>)
    ensures NoneAlias(RecordErrors(r, schema))
    ensures RecordErrors(r, schema) == [] <==>
            && schema == [] && UniqueIds(r.screens) && RoutesOwned(r.screens)
            && ScreensOk(r.catalogs, Ids(r.screens), r.screens)
  {
    var g := ById(r.screens);
    ByIdKeys(r.screens);
    IndexErrorsNone(r.screens);
    AllScreenErrorsNone(r.catalogs, g.Keys, r.screens);
    NoneAliasConcat(SchemaErrors(schema), IndexErrors(r.screens));
    NoneAliasConcat(SchemaErrors(schema) + IndexErrors(r.screens), AllScreenErrors(r.catalogs, g.Keys, r.screens));
  }

  lemma IdListKeys(screens: seq<Screen>)
    ensures forall id :: id in Ids(screens) <==> id in IdList(screens)
  {
    forall id | id in Ids(screens) ensures id in IdList(screens) {
      var s :| s in screens && s.id == id;
      var i :| 0 <= i < |screens| && screens[i] == s;
      assert IdList(screens)[i] == id;
    }
  }

  // ------------------------------------------------------------ consequences

  /** What the validator is for: ids and routes are unique, every screen is in order and every alias leads somewhere. */
  ghost predicate Promised(r: Registry) {
    && UniqueIds(r.screens)
    && UniqueRoutes(r.screens)
    && ScreensOk(r.catalogs, Ids(r.screens), r.screens)
    && (forall s <- r.screens :: Resolves(ById(r.screens), s.id))
  }

  /** A schema message, or an id for every screen; the schema of this repository asks for ids that are not empty. */
  predicate IdsRequired(r: Registry, schema: seq<string>) {
    schema == [] ==> forall s <- r.screens :: s.id != ""
  }

  /** Under a schema that asks for ids the validator does what it is for: no errors exactly when all is as promised. */
  lemma PromiseKept(r: Registry, schema: seq<string>)
    requires IdsRequired(r, schema)
    ensures AllErrors(r, schema) == [] <==> schema == [] && Promised(r)
  {
    Verdict(r, schema);
    if schema == [] {
      forall i | 0 <= i < |r.screens| ensures r.screens[i].id != "" { assert r.screens[i] in r.screens; }
    }
  }

  /** The guard that lets a shared route pass: the route has an owner, whose id is empty. */
  predicate Overlooked(screens: seq<Screen>, j: nat)
    requires j < |screens|
  {
    var s, owners := screens[j], Owners(screens[..j]);
    s.mode.Standalone? && Present(s.route) && s.route.value in owners && owners[s.route.value] == ""
  }

  predicate HasRoute(s: Screen, route: string) { s.mode.Standalone? && s.route == Some(route) && route != "" }

  /** A route has an owner as soon as some screen has it. */
  lemma {:induction false} OwnedIff(screens: seq<Screen>, route: string)
    ensures route in Owners(screens) <==> exists i :: 0 <= i < |screens| && HasRoute(screens[i], route)
  {
    if screens != [] {
      var rest, last := screens[..|screens| - 1], screens[|screens| - 1];
      OwnedIff(rest, route);
      if i :| 0 <= i < |rest| && HasRoute(rest[i], route) { assert HasRoute(screens[i], route); }
      if i :| 0 <= i < |screens| && HasRoute(screens[i], route) {
        assert i < |rest| ==> HasRoute(rest[i], route);
      }
    }
  }

  /**
   * Under any schema: nothing promised is ever reported, and where nothing is reported all is as promised exactly
   * when no screen passed the guard for an owner with an empty id.
   */
  lemma PromiseKeptIff(r: Registry, schema: seq<string>)
    ensures schema == [] && Promised(r) ==> AllErrors(r, schema) == []
    ensures AllErrors(r, schema) == [] ==>
              (Promised(r) <==> forall j | 0 <= j < |r.screens| :: !Overlooked(r.screens, j))
  {
    Verdict(r, schema);
    if AllErrors(r, schema) == [] { UniqueUnlessOverlooked(r.screens); }
  }

  lemma UniqueUnlessOverlooked(screens: seq<Screen>)
    requires RoutesOwned(screens)
    ensures UniqueRoutes(screens) <==> forall j | 0 <= j < |screens| :: !Overlooked(screens, j)
  {
    forall j | 0 <= j < |screens|
      ensures Overlooked(screens, j) <==> exists i :: 0 <= i < j && SameRoute(screens[i], screens[j])
    {
      OverlookedIff(screens, j);
    }
  }

  lemma OverlookedIff(screens: seq<Screen>, j: nat)
    requires RoutesOwned(screens) && j < |screens|
    ensures Overlooked(screens, j) <==> exists i :: 0 <= i < j && SameRoute(screens[i], screens[j])
  {
    var s, before := screens[j], screens[..j];
    if s.mode.Standalone? && Present(s.route) {
      OwnedIff(before, s.route.value);
      TakenIff(before, s.route.value);
      forall i | 0 <= i < j && HasRoute(before[i], s.route.value) ensures before[i].id == "" {
        assert SameRoute(screens[i], s);
      }
      assert !Claimed(before, s.route.value);
      if i :| 0 <= i < j && SameRoute(screens[i], s) { assert HasRoute(before[i], s.route.value); }
      if i :| 0 <= i < |before| && HasRoute(before[i], s.route.value) { assert SameRoute(screens[i], s); }
    }
  }

  function Page(id: string, route: string): Screen {
    Screen(id, MerchantWeb, Standalone, Some(route), [], None, None, "f", "1", "g", "p", "v", ["c"], false, [], [])
  }

  function Pages(): seq<Screen> { [Page("", "/app"), Page("A", "/app")] }

  function PageCatalogs(): Catalogs { Catalogs({"f"}, {"p"}, {"v"}, {}) }

  lemma PageOk(ids: set<string>, id: string)
    ensures ScreenOk(PageCatalogs(), ids, Page(id, "/app"))
  {
    assert "/app" in Prefixes(MerchantWeb);
    assert OnSurface("/app", MerchantWeb);
  }

  lemma NoAliasesResolve(screens: seq<Screen>)
    requires UniqueIds(screens) && forall s <- screens :: !s.mode.Alias?
    ensures forall s <- screens :: Resolves(ById(screens), s.id)
  {
    forall i | 0 <= i < |screens| ensures Resolves(ById(screens), screens[i].id) {
      ByIdFinds(screens, i);
      assert Iter(ById(screens), screens[i].id, 0) == Some(screens[i].id);
      assert Canonical(ById(screens), screens[i].id) && Reaches(ById(screens), screens[i].id, screens[i].id);
    }
  }

  lemma PagesIndexed()
    ensures UniqueIds(Pages()) && RoutesOwned(Pages()) && !UniqueRoutes(Pages())
    ensures forall s <- Pages() :: !s.mode.Alias?
  {
    assert SameRoute(Pages()[0], Pages()[1]);
  }

  lemma PagesOk(ids: set<string>)
    ensures ScreensOk(PageCatalogs(), ids, Pages())
  {
    PageOk(ids, "");
    PageOk(ids, "A");
  }

  /**
   * Under a schema that does not ask for ids, such as one that accepts everything: two screens share a route, the first
   * has no id, and nothing is reported.
   */
  lemma SharedRouteUnnoticed()
    ensures AllErrors(Registry(PageCatalogs(), Pages()), []) == [] && !UniqueRoutes(Pages())
    ensures !Promised(Registry(PageCatalogs(), Pages())) && !IdsRequired(Registry(PageCatalogs(), Pages()), [])
  {
    PagesIndexed();
    PagesOk(Ids(Pages()));
    NoAliasesResolve(Pages());
    assert Pages()[0] in Pages();
    Verdict(Registry(PageCatalogs(), Pages()), []);
  }

  /** In a registry without errors the route of a screen belongs to its own surface and to no other. */
  lemma RouteOnOneSurface(r: Registry, schema: seq<string>, s: Screen, surface: Surface)
    requires AllErrors(r, schema) == [] && s in r.screens && s.mode.Standalone? && Present(s.route)
    ensures OnSurface(s.route.value, surface) <==> surface == s.surface
  {
    Verdict(r, schema);
    assert ScreenOk(r.catalogs, Ids(r.screens), s);
    if OnSurface(s.route.value, surface) { OneSurface(s.route.value, surface, s.surface); }
  }

  /** The order of screens with different ids does not matter to the index. */
  lemma IndexIgnoresOrder(a: seq<Screen>, b: seq<Screen>)
    requires UniqueIds(a) && UniqueIds(b) && multiset(a) == multiset(b)
    ensures ById(a) == ById(b)
  {
    ByIdKeys(a);
    ByIdKeys(b);
    forall s ensures s in a <==> s in b { assert s in multiset(a) <==> s in multiset(b); }
    forall id | id in ById(a) ensures ById(a)[id] == ById(b)[id] {
      var s :| s in a && s.id == id;
      var i :| 0 <= i < |a| && a[i] == s;
      var j :| 0 <= j < |b| && b[j] == s;
      ByIdFinds(a, i);
      ByIdFinds(b, j);
    }
  }

  /** The errors tell how many cycles the aliases make, and so neither the order of the screens matters. */
  lemma CycleCount(r: Registry, schema: seq<string>)
    ensures CycleErrors(AllErrors(r, schema)) == |Cycles(ById(r.screens))|
  {
    RecordErrorsClean(r, schema);
    IdListKeys(r.screens);
    ByIdKeys(r.screens);
    CyclesReportedOnce(ById(r.screens), RecordErrors(r, schema), IdList(r.screens));
  }

  lemma OrderIrrelevant(c: Catalogs, a: seq<Screen>, b: seq<Screen>, schema: seq<string>)
    requires UniqueIds(a) && UniqueIds(b) && multiset(a) == multiset(b)
    ensures CycleErrors(AllErrors(Registry(c, a), schema)) == CycleErrors(AllErrors(Registry(c, b), schema))
  {
    IndexIgnoresOrder(a, b);
    CycleCount(Registry(c, a), schema);
    CycleCount(Registry(c, b), schema);
  }

  // ------------------------------------------------------------ the validator

  /** The variables of `validateRegistry`. */
  class Validation {
    var errors: seq<Error>
    var byId: map<string, Screen>
    var routeOwners: map<string, string>
    var visitState: map<string, Mark>

    constructor (schema: seq<string>)
      ensures errors == SchemaErrors(schema)
      ensures byId == map[] && routeOwners == map[] && visitState == map[]
    {
      errors, byId, routeOwners, visitState := SchemaErrors(schema), map[], map[], map[];
    }

    /** The body of the first loop. */
    method IndexScreen(s: Screen)
      modifies this`errors, this`byId, this`routeOwners
      ensures errors == old(errors) + IndexErrorsOf(old(byId), old(routeOwners), s)
      ensures byId == if s.id in old(byId) then old(byId) else old(byId)[s.id := s]
      ensures routeOwners == if s.mode.Standalone? && Present(s.route) && !Taken(old(routeOwners), s.route.value)
                             then old(routeOwners)[s.route.value := s.id] else old(routeOwners)
    {
      if s.id in byId {
        errors := errors + [DuplicateId(s.id)];
      } else {
        byId := byId[s.id := s];
      }
      if s.mode.Standalone? && Present(s.route) {
        if Taken(routeOwners, s.route.value) {
          errors := errors + [DuplicateRoute(s.route.value, routeOwners[s.route.value], s.id)];
        } else {
          routeOwners := routeOwners[s.route.value := s.id];
        }
      }
    }

    method IndexScreens(screens: seq<Screen>)
      requires byId == map[] && routeOwners == map[]
      modifies this`errors, this`byId, this`routeOwners
      ensures errors == old(errors) + IndexErrors(screens)
      ensures byId == ById(screens) && routeOwners == Owners(screens)
    {
      for i := 0 to |screens|
        invariant errors == old(errors) + IndexErrors(screens[..i])
        invariant byId == ById(screens[..i]) && routeOwners == Owners(screens[..i])
      {
        assert screens[..i + 1][..i] == screens[..i];
        Assoc(old(errors), IndexErrors(screens[..i]), IndexErrorsOf(byId, routeOwners, screens[i]));
        IndexScreen(screens[i]);
      }
      assert screens[..|screens|] == screens;
    }

    /** One of the loops over the references of a screen. */
    method CheckReferences(kind: Reference, refs: seq<string>, known: set<string>, id: string)
      modifies this`errors
      ensures errors == old(errors) + Missing(kind, refs, known, id)
    {
      for i := 0 to |refs|
        invariant errors == old(errors) + Missing(kind, refs[..i], known, id)
      {
        assert refs[..i + 1][..i] == refs[..i];
        if refs[i] !in known {
          errors := errors + [RefError(kind, refs[i], id)];
        }
      }
      assert refs[..|refs|] == refs;
    }

    method CheckCatalogs(c: Catalogs, s: Screen)
      modifies this`errors
      ensures errors == old(errors) + CatalogErrors(c, s)
    {
      if s.family !in c.families { errors := errors + [InvalidFamily(s.family, s.id)]; }
      if s.permission !in c.permissions { errors := errors + [UnknownPermission(s.permission, s.id)]; }
      if s.projection !in c.projections { errors := errors + [UnknownProjection(s.projection, s.id)]; }
    }

    method CheckPlacement(c: Catalogs, s: Screen)
      modifies this`errors
      ensures errors == old(errors) + PlacementErrors(c, s)
    {
      if s.resolved && s.workPackages == [] { errors := errors + [MissingWorkPackage(s.id)]; }
      if s.phase == "" || s.featureGate == "" { errors := errors + [MissingPhaseOrGate(s.id)]; }
      if (s.mode.Embedded? || s.mode.Contextual?) && s.parents == [] && !Present(s.allowedFamily) {
        errors := errors + [MissingParentOrFamily(s.id)];
      }
      if Present(s.allowedFamily) && s.allowedFamily.value !in c.families {
        errors := errors + [InvalidAllowedFamily(s.allowedFamily.value, s.id)];
      }
    }

    method CheckActions(s: Screen)
      modifies this`errors
      ensures errors == old(errors) + ActionErrors(s)
    {
      if !s.mode.Alias? && s.commands == [] { errors := errors + [MissingCommand(s.id)]; }
      if !s.mode.Alias? && s.permission == "" { errors := errors + [MissingPermission(s.id)]; }
      if s.mode.Standalone? && Present(s.route) && !OnSurface(s.route.value, s.surface) {
        errors := errors + [SurfaceCollision(s.surface, s.route.value, s.id)];
      }
    }

    /** The body of the second loop. */
    method CheckScreen(c: Catalogs, s: Screen)
      modifies this`errors
      ensures errors == old(errors) + ScreenErrors(c, byId.Keys, s)
    {
      ghost var before := errors;
      ghost var packages := Missing(WorkPackage, s.workPackages, c.workPackages, s.id);
      ghost var refs := ReferenceErrors(c, byId.Keys, s);
      CheckCatalogs(c, s);
      CheckReferences(WorkPackage, s.workPackages, c.workPackages, s.id);
      CheckPlacement(c, s);
      CheckReferences(Parent, s.parents, byId.Keys, s.id);
      CheckReferences(Target, s.navigationTargets, byId.Keys, s.id);
      CheckActions(s);
      Reassociate(before, CatalogErrors(c, s), packages, PlacementErrors(c, s),
                  Missing(Parent, s.parents, byId.Keys, s.id), Missing(Target, s.navigationTargets, byId.Keys, s.id),
                  ActionErrors(s));
    }

    method CheckScreens(c: Catalogs, screens: seq<Screen>)
      modifies this`errors
      ensures errors == old(errors) + AllScreenErrors(c, byId.Keys, screens)
    {
      for i := 0 to |screens|
        invariant errors == old(errors) + AllScreenErrors(c, byId.Keys, screens[..i])
      {
        assert screens[..i + 1][..i] == screens[..i];
        Assoc(old(errors), AllScreenErrors(c, byId.Keys, screens[..i]), ScreenErrors(c, byId.Keys, screens[i]));
        CheckScreen(c, screens[i]);
      }
      assert screens[..|screens|] == screens;
    }

    /** `visit`, which follows an alias and comes back. */
    method Visit(id: string, path: seq<string>)
      modifies this`errors, this`visitState
      ensures Visits(visitState, errors) == AliasGraph.Visit(byId, Visits(old(visitState), old(errors)), id, path)
      decreases |byId.Keys - visitState.Keys|
    {
      if id !in byId || !byId[id].mode.Alias? { return; }
      var target := byId[id].aliasOf;
      if !Present(target) || target.value !in byId {
        errors := errors + [UnknownAliasTarget(target, id)];
        return;
      }
      if id in visitState && visitState[id].Visiting? {
        errors := errors + [AliasCycle(path + [id])];
        return;
      }
      if id in visitState { return; }
      Unmarked(byId, visitState, id);
      visitState := visitState[id := Visiting];
      Visit(target.value, path + [id]);
      visitState := visitState[id := Visited];
    }

    method VisitScreens(screens: seq<Screen>)
      requires visitState == map[]
      modifies this`errors, this`visitState
      ensures errors == VisitAll(byId, Visits(map[], old(errors)), IdList(screens)).errors
    {
      ghost var ids, start := IdList(screens), Visits(map[], errors);
      for i := 0 to |screens|
        invariant Visits(visitState, errors) == VisitAll(byId, start, ids[..i])
      {
        assert ids[..i + 1][..i] == ids[..i];
        Visit(screens[i].id, []);
      }
      assert ids[..|screens|] == ids;
    }
  }

  lemma Reassociate(a: seq<Error>, b: seq<Error>, c: seq<Error>, d: seq<Error>, e: seq<Error>, f: seq<Error>,
                    g: seq<Error>)
    ensures a + b + c + d + e + f + g == a + (b + (c + (d + ((e + f) + g))))
  {
    Assoc(a + b + c + d, e, f);
    Assoc(a + b + c + d, e + f, g);
    Assoc(a + b + c, d, (e + f) + g);
    Assoc(a + b, c, d + ((e + f) + g));
    Assoc(a, b, c + (d + ((e + f) + g)));
  }

  /** `validateRegistry`; `schema` holds the messages of the schema validator, none if the registry passes. */
  method ValidateRegistry(r: Registry, schema: seq<string>) returns (valid: bool, errors: seq<Error>)
    ensures errors == AllErrors(r, schema)
    ensures valid <==> schema == [] && WellFormed(r)
    ensures IdsRequired(r, schema) ==> (valid <==> schema == [] && Promised(r))
  {
    var v := new Validation(schema);
    v.IndexScreens(r.screens);
    v.CheckScreens(r.catalogs, r.screens);
    v.VisitScreens(r.screens);
    Verdict(r, schema);
    if IdsRequired(r, schema) { PromiseKept(r, schema); }
    return v.errors == [], v.errors;
  }
}
