/** Which errors `validateRegistry` of `tooling/screen-registry/validate.ts` reports, told from the records alone. */
module ScreenReports {
  import opened Common
  import opened ScreenRegistry
  import opened AliasGraph
  import opened ScreenValidator

  /** The prefixes of a surface. */
  predicate Under(route: string, surface: Surface) {
    match surface
    case CustomerPwa =>
      || "/menu" <= route || "/cart" <= route || "/checkout" <= route || "/orders" <= route || "/account" <= route
      || "/reservations" <= route || "/waitlist" <= route || "/dine-in" <= route
    case MerchantWeb => "/app" <= route
    case OperationsWeb => "/operations" <= route
    case PlatformOperations => "/platform" <= route
  }

  lemma UnderIff(route: string, surface: Surface)
    ensures OnSurface(route, surface) <==> Under(route, surface)
  {
    match surface
    case CustomerPwa => CustomerIff(route);
    case MerchantWeb => assert "/app" in Prefixes(surface);
    case OperationsWeb => assert "/operations" in Prefixes(surface);
    case PlatformOperations => assert "/platform" in Prefixes(surface);
  }

  lemma CustomerIff(route: string)
    ensures OnSurface(route, CustomerPwa) <==> Under(route, CustomerPwa)
  {
    var ps := Prefixes(CustomerPwa);
    assert "/menu" in ps && "/cart" in ps && "/checkout" in ps && "/orders" in ps && "/account" in ps;
    assert "/reservations" in ps && "/waitlist" in ps && "/dine-in" in ps;
  }

  /** What is wrong with one screen, for each kind of message with what it names. */
  predicate Wrong(c: Catalogs, ids: set<string>, s: Screen, e: Error) {
    match e
    case InvalidFamily(family, id) => id == s.id && family == s.family && family !in c.families
    case UnknownPermission(permission, id) =>
      id == s.id && permission == s.permission && permission !in c.permissions
    case UnknownProjection(projection, id) =>
      id == s.id && projection == s.projection && projection !in c.projections
    case UnknownWorkPackage(workPackage, id) =>
      id == s.id && workPackage in s.workPackages && workPackage !in c.workPackages
    case MissingWorkPackage(id) => id == s.id && s.resolved && s.workPackages == []
    case MissingPhaseOrGate(id) => id == s.id && (s.phase == "" || s.featureGate == "")
    case MissingParentOrFamily(id) =>
      id == s.id && (s.mode == Embedded || s.mode == Contextual) && s.parents == []
      && (s.allowedFamily == None || s.allowedFamily == Some(""))
    case InvalidAllowedFamily(family, id) =>
      id == s.id && s.allowedFamily == Some(family) && family != "" && family !in c.families
    case InvalidParent(parent, id) => id == s.id && parent in s.parents && parent !in ids
    case BrokenNavigation(target, id) => id == s.id && target in s.navigationTargets && target !in ids
    case MissingCommand(id) => id == s.id && s.mode != Alias && s.commands == []
    case MissingPermission(id) => id == s.id && s.mode != Alias && s.permission == ""
    case SurfaceCollision(surface, route, id) =>
      && id == s.id && surface == s.surface && s.mode == Standalone
      && s.route == Some(route) && route != "" && !Under(route, surface)
    case _ => false
  }

  predicate InOneOf(e: Error, a: seq<Error>, b: seq<Error>) { e in a || e in b }

  lemma InConcat(e: Error, a: seq<Error>, b: seq<Error>)
    ensures e in a + b <==> InOneOf(e, a, b)
  {
  }

  lemma {:induction false} MissingIff(kind: Reference, refs: seq<string>, known: set<string>, id: string, e: Error)
    ensures e in Missing(kind, refs, known, id) <==>
            exists i :: 0 <= i < |refs| && refs[i] !in known && e == RefError(kind, refs[i], id)
  {
    if refs != [] {
      var rest, last := refs[..|refs| - 1], refs[|refs| - 1];
      MissingIff(kind, rest, known, id, e);
      InConcat(e, Missing(kind, rest, known, id), If(last !in known, RefError(kind, last, id)));
      if i :| 0 <= i < |rest| && rest[i] !in known && e == RefError(kind, rest[i], id) {
        assert refs[i] !in known && e == RefError(kind, refs[i], id);
      }
      if i :| 0 <= i < |refs| && refs[i] !in known && e == RefError(kind, refs[i], id) {
        assert i < |rest| ==> rest[i] !in known && e == RefError(kind, rest[i], id);
      }
    }
  }

  lemma WorkPackageIff(refs: seq<string>, known: set<string>, id: string, e: Error)
    ensures e in Missing(WorkPackage, refs, known, id) <==>
            e.UnknownWorkPackage? && e.id == id && e.workPackage in refs && e.workPackage !in known
  {
    MissingIff(WorkPackage, refs, known, id, e);
  }

  lemma ParentIff(refs: seq<string>, known: set<string>, id: string, e: Error)
    ensures e in Missing(Parent, refs, known, id) <==>
            e.InvalidParent? && e.id == id && e.parent in refs && e.parent !in known
  {
    MissingIff(Parent, refs, known, id, e);
  }

  lemma TargetIff(refs: seq<string>, known: set<string>, id: string, e: Error)
    ensures e in Missing(Target, refs, known, id) <==>
            e.BrokenNavigation? && e.id == id && e.target in refs && e.target !in known
  {
    MissingIff(Target, refs, known, id, e);
  }

  lemma CatalogIff(c: Catalogs, ids: set<string>, s: Screen, e: Error)
    ensures e in CatalogErrors(c, s) <==>
            (e.InvalidFamily? || e.UnknownPermission? || e.UnknownProjection?) && Wrong(c, ids, s, e)
  {
  }

  lemma PlacementIff(c: Catalogs, ids: set<string>, s: Screen, e: Error)
    ensures e in PlacementErrors(c, s) <==>
            && (e.MissingWorkPackage? || e.MissingPhaseOrGate? || e.MissingParentOrFamily? || e.InvalidAllowedFamily?)
            && Wrong(c, ids, s, e)
  {
    var a, b := If(s.resolved && s.workPackages == [], MissingWorkPackage(s.id)),
                If(s.phase == "" || s.featureGate == "", MissingPhaseOrGate(s.id));
    var d := If((s.mode.Embedded? || s.mode.Contextual?) && s.parents == [] && !Present(s.allowedFamily),
                MissingParentOrFamily(s.id));
    var f := if Present(s.allowedFamily) && s.allowedFamily.value !in c.families
             then [InvalidAllowedFamily(s.allowedFamily.value, s.id)] else [];
    InFour(e, a, b, d, f);
    IfIff(s.resolved && s.workPackages == [], MissingWorkPackage(s.id), e);
    IfIff(s.phase == "" || s.featureGate == "", MissingPhaseOrGate(s.id), e);
    IfIff((s.mode.Embedded? || s.mode.Contextual?) && s.parents == [] && !Present(s.allowedFamily),
          MissingParentOrFamily(s.id), e);
  }

  lemma InFour(e: Error, a: seq<Error>, b: seq<Error>, c: seq<Error>, d: seq<Error>)
    ensures e in a + b + c + d <==> e in a || e in b || e in c || e in d
  {
    InConcat(e, a + b + c, d);
    InConcat(e, a + b, c);
    InConcat(e, a, b);
  }

  lemma IfIff(condition: bool, x: Error, e: Error)
    ensures e in If(condition, x) <==> condition && e == x
  {
  }

  lemma ActionIff(c: Catalogs, ids: set<string>, s: Screen, e: Error)
    ensures e in ActionErrors(s) <==>
            (e.MissingCommand? || e.MissingPermission? || e.SurfaceCollision?) && Wrong(c, ids, s, e)
  {
    if s.route.Some? { UnderIff(s.route.value, s.surface); }
  }

  lemma ScreenErrorIff(c: Catalogs, ids: set<string>, s: Screen, e: Error)
    ensures e in ScreenErrors(c, ids, s) <==> Wrong(c, ids, s, e)
  {
    var packages, placement := Missing(WorkPackage, s.workPackages, c.workPackages, s.id), PlacementErrors(c, s);
    var refs, actions := ReferenceErrors(c, ids, s), ActionErrors(s);
    InConcat(e, CatalogErrors(c, s), packages + (placement + (refs + actions)));
    InConcat(e, packages, placement + (refs + actions));
    InConcat(e, placement, refs + actions);
    InConcat(e, refs, actions);
    InConcat(e, Missing(Parent, s.parents, ids, s.id), Missing(Target, s.navigationTargets, ids, s.id));
    CatalogIff(c, ids, s, e);
    WorkPackageIff(s.workPackages, c.workPackages, s.id, e);
    PlacementIff(c, ids, s, e);
    ParentIff(s.parents, ids, s.id, e);
    TargetIff(s.navigationTargets, ids, s.id, e);
    ActionIff(c, ids, s, e);
  }

  predicate AnyWrong(c: Catalogs, ids: set<string>, screens: seq<Screen>, e: Error) {
    exists s <- screens :: Wrong(c, ids, s, e)
  }

  lemma AnyWrongMore(c: Catalogs, ids: set<string>, rest: seq<Screen>, last: Screen, e: Error)
    ensures AnyWrong(c, ids, rest + [last], e) <==> AnyWrong(c, ids, rest, e) || Wrong(c, ids, last, e)
  {
    forall s ensures s in rest + [last] <==> s in rest || s == last {}
  }

  /** The errors contain `e` exactly if some screen is wrong in that way. */
  predicate Tells(c: Catalogs, ids: set<string>, screens: seq<Screen>, errors: seq<Error>, e: Error) {
    e in errors <==> AnyWrong(c, ids, screens, e)
  }

  lemma OneMoreTells(c: Catalogs, ids: set<string>, rest: seq<Screen>, last: Screen, errors: seq<Error>, e: Error)
    requires Tells(c, ids, rest, errors, e)
    ensures Tells(c, ids, rest + [last], errors + ScreenErrors(c, ids, last), e)
  {
    ScreenErrorIff(c, ids, last, e);
    InConcat(e, errors, ScreenErrors(c, ids, last));
    AnyWrongMore(c, ids, rest, last, e);
  }

  lemma {:induction false} AllScreenErrorsTell(c: Catalogs, ids: set<string>, screens: seq<Screen>, e: Error)
    ensures Tells(c, ids, screens, AllScreenErrors(c, ids, screens), e)
  {
    if screens == [] {
      assert Tells(c, ids, [], [], e);
    } else {
      var rest, last := screens[..|screens| - 1], screens[|screens| - 1];
      AllScreenErrorsTell(c, ids, rest, e);
      assert screens == rest + [last];
      assert Tells(c, ids, screens, AllScreenErrors(c, ids, rest) + ScreenErrors(c, ids, last), e) by {
        OneMoreTells(c, ids, rest, last, AllScreenErrors(c, ids, rest), e);
      }
    }
  }

  // ---------------------------------------------------------------- ids and routes

  predicate HasId(screens: seq<Screen>, i: nat, id: string) { i < |screens| && screens[i].id == id }

  predicate Serves(screens: seq<Screen>, i: nat, route: string) {
    i < |screens| && screens[i].mode == Standalone && screens[i].route == Some(route) && route != ""
  }

  /** The first screen with an id of its own that serves a route. */
  ghost predicate Owner(screens: seq<Screen>, i: nat, route: string) {
    && Serves(screens, i, route) && screens[i].id != ""
    && forall k | 0 <= k < i :: Serves(screens, k, route) ==> screens[k].id == ""
  }

  lemma {:induction false} OwnerIs(screens: seq<Screen>, route: string, prior: string)
    ensures Taken(Owners(screens), route) && Owners(screens)[route] == prior <==>
            exists i: nat :: Owner(screens, i, route) && screens[i].id == prior
  {
    if screens != [] {
      var rest, last := screens[..|screens| - 1], screens[|screens| - 1];
      var n := |rest|;
      OwnerIs(rest, route, prior);
      TakenIff(rest, route);
      forall k: nat | k < n ensures Serves(screens, k, route) == Serves(rest, k, route) && screens[k] == rest[k] {}
      forall i: nat | i < n ensures Owner(screens, i, route) <==> Owner(rest, i, route) {}
      if Owner(screens, n, route) { NoOwnerBefore(screens, n, route); }
      if !Claimed(rest, route) {
        forall k | 0 <= k < n && Serves(screens, k, route) ensures screens[k].id == "" {
          assert rest[k] in rest && !Claims(rest[k], route);
        }
      }
      if i: nat :| Owner(screens, i, route) && screens[i].id == prior {
        assert i < n ==> Owner(rest, i, route);
      }
      if i: nat :| Owner(rest, i, route) && rest[i].id == prior { assert Owner(screens, i, route); }
    }
  }

  lemma NoOwnerBefore(screens: seq<Screen>, n: nat, route: string)
    requires Owner(screens, n, route) && n == |screens| - 1
    ensures !Claimed(screens[..n], route)
  {
    forall s | s in screens[..n] ensures !Claims(s, route) {
      var k :| 0 <= k < n && screens[k] == s;
      assert Serves(screens, k, route) ==> screens[k].id == "";
    }
  }

  /** What the index finds wrong with a screen: an id that an earlier screen has, or a route that one owns. */
  ghost predicate Clash(screens: seq<Screen>, j: nat, e: Error) {
    match e
    case DuplicateId(id) => HasId(screens, j, id) && exists i: nat :: i < j && HasId(screens, i, id)
    case DuplicateRoute(route, prior, id) =>
      && HasId(screens, j, id) && Serves(screens, j, route)
      && exists i: nat :: i < j && Owner(screens, i, route) && HasId(screens, i, prior)
    case _ => false
  }

  ghost predicate AnyClash(screens: seq<Screen>, e: Error) { exists j: nat :: Clash(screens, j, e) }

  lemma KnownIff(screens: seq<Screen>, id: string)
    ensures id in ById(screens) <==> exists i: nat :: HasId(screens, i, id)
  {
    ByIdKeys(screens);
    if id in ById(screens) {
      var s :| s in screens && s.id == id;
      var i :| 0 <= i < |screens| && screens[i] == s;
      assert HasId(screens, i, id);
    }
    if i: nat :| HasId(screens, i, id) { assert screens[i] in screens; }
  }

  lemma ClashKept(rest: seq<Screen>, last: Screen, j: nat, e: Error)
    requires j < |rest|
    ensures Clash(rest + [last], j, e) <==> Clash(rest, j, e)
  {
    var all := rest + [last];
    forall i: nat, id | i < |rest| ensures HasId(all, i, id) <==> HasId(rest, i, id) {}
    forall i: nat, route | i < |rest| ensures Owner(all, i, route) <==> Owner(rest, i, route) {
      OwnerKept(rest, last, i, route);
    }
  }

  lemma OwnerKept(rest: seq<Screen>, last: Screen, i: nat, route: string)
    requires i < |rest|
    ensures Owner(rest + [last], i, route) <==> Owner(rest, i, route)
  {
    forall k: nat | k < |rest| ensures Serves(rest + [last], k, route) == Serves(rest, k, route) {}
  }

  lemma ClashLast(rest: seq<Screen>, last: Screen, e: Error)
    ensures Clash(rest + [last], |rest|, e) <==> e in IndexErrorsOf(ById(rest), Owners(rest), last)
  {
    match e
    case DuplicateId(id) => SameIdLast(rest, last, id);
    case DuplicateRoute(_, _, _) => SameRouteLast(rest, last, e);
    case _ =>
  }

  lemma SameIdLast(rest: seq<Screen>, last: Screen, id: string)
    ensures Clash(rest + [last], |rest|, DuplicateId(id)) <==> last.id == id && id in ById(rest)
  {
    KnownIff(rest, id);
    forall i: nat | i < |rest| ensures HasId(rest + [last], i, id) <==> HasId(rest, i, id) {}
  }

  lemma SameRouteLast(rest: seq<Screen>, last: Screen, e: Error)
    requires e.DuplicateRoute?
    ensures Clash(rest + [last], |rest|, e) <==>
            && e.id == last.id && last.mode.Standalone? && last.route == Some(e.route) && e.route != ""
            && Taken(Owners(rest), e.route) && Owners(rest)[e.route] == e.prior
  {
    var all, n := rest + [last], |rest|;
    OwnerIs(rest, e.route, e.prior);
    forall i: nat | i < n ensures HasId(all, i, e.prior) <==> HasId(rest, i, e.prior) {}
    forall i: nat | i < n ensures Owner(all, i, e.route) <==> Owner(rest, i, e.route) {
      OwnerKept(rest, last, i, e.route);
    }
    if i: nat :| i < n && Owner(all, i, e.route) && HasId(all, i, e.prior) { assert rest[i].id == e.prior; }
    if i: nat :| Owner(rest, i, e.route) && rest[i].id == e.prior {
      assert Owner(all, i, e.route) && HasId(all, i, e.prior);
    }
  }

  lemma AnyClashMore(rest: seq<Screen>, last: Screen, e: Error)
    ensures AnyClash(rest + [last], e) <==> AnyClash(rest, e) || Clash(rest + [last], |rest|, e)
  {
    if j: nat :| Clash(rest, j, e) { ClashKept(rest, last, j, e); }
    if j: nat :| Clash(rest + [last], j, e) {
      if j < |rest| { ClashKept(rest, last, j, e); }
    }
  }

  lemma {:induction false} IndexErrorsIff(screens: seq<Screen>, e: Error)
    ensures e in IndexErrors(screens) <==> AnyClash(screens, e)
  {
    if screens != [] {
      var rest, last := screens[..|screens| - 1], screens[|screens| - 1];
      assert screens == rest + [last];
      assert e in IndexErrors(rest) + IndexErrorsOf(ById(rest), Owners(rest), last) <==> AnyClash(rest + [last], e) by {
        IndexErrorsIff(rest, e);
        ClashLast(rest, last, e);
        AnyClashMore(rest, last, e);
        InConcat(e, IndexErrors(rest), IndexErrorsOf(ById(rest), Owners(rest), last));
      }
    }
  }

  // ---------------------------------------------------------------- all messages

  /** The first screen with an id, which is the one the index holds. */
  predicate FirstWith(screens: seq<Screen>, i: nat, id: string) {
    HasId(screens, i, id) && forall k | 0 <= k < i :: screens[k].id != id
  }

  lemma {:induction false} ByIdFirst(screens: seq<Screen>, id: string) returns (i: nat)
    requires id in ById(screens)
    ensures FirstWith(screens, i, id) && ById(screens)[id] == screens[i]
  {
    var rest := screens[..|screens| - 1];
    if id in ById(rest) {
      i := ByIdFirst(rest, id);
    } else {
      i := |rest|;
      ByIdKeys(rest);
      forall k | 0 <= k < i ensures screens[k].id != id { assert rest[k] in rest; }
    }
  }

  /** An alias without a target that exists, of the screen the index holds. */
  ghost predicate Astray(screens: seq<Screen>, i: nat, target: Option<string>, id: string) {
    && FirstWith(screens, i, id) && screens[i].mode == Alias && screens[i].aliasOf == target
    && (target == None || target == Some("") || forall k: nat :: !HasId(screens, k, target.value))
  }

  lemma DanglingIff(screens: seq<Screen>, target: Option<string>, id: string)
    ensures Dangling(ById(screens), id) && ById(screens)[id].aliasOf == target <==>
            exists i: nat :: Astray(screens, i, target, id)
  {
    if target.Some? { KnownIff(screens, target.value); }
    KnownIff(screens, id);
    if id in ById(screens) {
      var i := ByIdFirst(screens, id);
      if Dangling(ById(screens), id) && ById(screens)[id].aliasOf == target {
        assert Astray(screens, i, target, id);
      }
      if j: nat :| Astray(screens, j, target, id) {
        assert i == j;
        assert target.Some? && target.value in ById(screens) ==> target == Some("");
      }
    }
  }

  /** What the validator has to report, but for cycles. */
  ghost predicate ToReport(r: Registry, schema: seq<string>, e: Error) {
    match e
    case SchemaViolation(text) => text in schema
    case DuplicateId(_) => AnyClash(r.screens, e)
    case DuplicateRoute(_, _, _) => AnyClash(r.screens, e)
    case UnknownAliasTarget(target, id) => exists i: nat :: Astray(r.screens, i, target, id)
    case _ => AnyWrong(r.catalogs, Ids(r.screens), r.screens, e)
  }

  lemma OnlyClashes(screens: seq<Screen>, e: Error)
    requires !e.DuplicateId? && !e.DuplicateRoute?
    ensures !AnyClash(screens, e)
  {
  }

  lemma OnlyWrongs(c: Catalogs, ids: set<string>, screens: seq<Screen>, e: Error)
    requires e.SchemaViolation? || e.DuplicateId? || e.DuplicateRoute? || IsAliasError(e)
    ensures !AnyWrong(c, ids, screens, e)
  {
  }

  lemma SchemaIff(schema: seq<string>, e: Error)
    ensures e in SchemaErrors(schema) <==> e.SchemaViolation? && e.text in schema
  {
    if e.SchemaViolation? && e.text in schema {
      var i :| 0 <= i < |schema| && schema[i] == e.text;
      assert SchemaErrors(schema)[i] == e;
    }
  }

  lemma RecordErrorIff(r: Registry, schema: seq<string>, e: Error)
    requires !IsAliasError(e)
    ensures e in RecordErrors(r, schema) <==> ToReport(r, schema, e)
  {
    ByIdKeys(r.screens);
    var ids := ById(r.screens).Keys;
    SchemaIff(schema, e);
    IndexErrorsIff(r.screens, e);
    AllScreenErrorsTell(r.catalogs, ids, r.screens, e);
    InConcat(e, SchemaErrors(schema) + IndexErrors(r.screens), AllScreenErrors(r.catalogs, ids, r.screens));
    InConcat(e, SchemaErrors(schema), IndexErrors(r.screens));
    if !e.DuplicateId? && !e.DuplicateRoute? { OnlyClashes(r.screens, e); }
    if e.SchemaViolation? || e.DuplicateId? || e.DuplicateRoute? { OnlyWrongs(r.catalogs, ids, r.screens, e); }
  }

  /** What the searches add to the errors of records. */
  ghost predicate Extended(g: Index, before: seq<Error>, after: seq<Error>, added: seq<Error>) {
    && after == before + added
    && NoneAlias(before)
    && (forall e <- added ::
          IsAliasError(e) && (e.UnknownAliasTarget? ==> Dangling(g, e.id) && e.aliasOf == g[e.id].aliasOf))
    && (forall id {:trigger Dangling(g, id)} :: Dangling(g, id) ==> UnknownAliasTarget(g[id].aliasOf, id) in after)
  }

  lemma Searches(r: Registry, schema: seq<string>) returns (added: seq<Error>)
    ensures Extended(ById(r.screens), RecordErrors(r, schema), AllErrors(r, schema), added)
  {
    var g, before, ids := ById(r.screens), RecordErrors(r, schema), IdList(r.screens);
    RecordErrorsClean(r, schema);
    IdsListed(r.screens);
    VisitAllSearches(g, before, ids);
    added := SearchesAdd(g, before, ids, VisitAll(g, Visits(map[], before), ids));
  }

  lemma IdsListed(screens: seq<Screen>)
    ensures forall id :: id in ById(screens) <==> id in IdList(screens)
  {
    IdListKeys(screens);
    ByIdKeys(screens);
  }

  lemma SearchesAdd(g: Index, before: seq<Error>, ids: seq<string>, w: Visits) returns (added: seq<Error>)
    requires NoneAlias(before) && Searched(g, before, ids, w) && forall id :: id in g <==> id in ids
    ensures Extended(g, before, w.errors, added)
  {
    added := w.errors[|before|..];
  }

  lemma TargetReported(r: Registry, schema: seq<string>, target: Option<string>, id: string)
    ensures UnknownAliasTarget(target, id) in AllErrors(r, schema) <==>
            exists i: nat :: Astray(r.screens, i, target, id)
  {
    var added := Searches(r, schema);
    InConcat(UnknownAliasTarget(target, id), RecordErrors(r, schema), added);
    DanglingIff(r.screens, target, id);
  }

  lemma RecordReported(r: Registry, schema: seq<string>, e: Error)
    requires !IsAliasError(e)
    ensures e in AllErrors(r, schema) <==> e in RecordErrors(r, schema)
  {
    var added := Searches(r, schema);
    InConcat(e, RecordErrors(r, schema), added);
  }

  /**
   * A message is reported if and only if there is what it says to report: a schema message, an id or a route taken
   * before by the very screen it names, a rule that the screen it names breaks with what it names, or an alias without
   * a target. (Cycles are reported once each, with their path.)
   */
  lemma ReportedIff(r: Registry, schema: seq<string>, e: Error)
    requires !e.AliasCycle?
    ensures e in AllErrors(r, schema) <==> ToReport(r, schema, e)
  {
    if e.UnknownAliasTarget? {
      TargetReported(r, schema, e.aliasOf, e.id);
    } else {
      RecordReported(r, schema, e);
      RecordErrorIff(r, schema, e);
    }
  }
}
