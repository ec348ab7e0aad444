/**
 * The graph of aliases in a screen registry and the search for cycles in it. A screen has at most one alias
 * target, so the search from a screen is a walk, and a cycle is what a walk comes back to.
 */
module AliasGraph {
  import opened Common
  import opened ScreenRegistry

  type Index = map<string, Screen>

  /** The alias target of a screen, when it has one that exists. */
  function Next(g: Index, id: string): Option<string> {
    if id in g && g[id].mode.Alias? && Present(g[id].aliasOf) && g[id].aliasOf.value in g then g[id].aliasOf else None
  }

  predicate Dangling(g: Index, id: string) {
    id in g && g[id].mode.Alias? && (!Present(g[id].aliasOf) || g[id].aliasOf.value !in g)
  }

  predicate Canonical(g: Index, id: string) { id in g && !g[id].mode.Alias? }

  /** Where `n` aliases lead from `id`. */
  function Iter(g: Index, id: string, n: nat): Option<string>
    decreases n
  {
    if n == 0 then Some(id)
    else
      match Next(g, id)
      case None => None
      case Some(target) => Iter(g, target, n - 1)
  }

  ghost predicate Reaches(g: Index, x: string, y: string) { exists n: nat :: Iter(g, x, n) == Some(y) }

  ghost predicate OnCycle(g: Index, x: string) { exists n: nat :: n > 0 && Iter(g, x, n) == Some(x) }

  /** The whole chain of aliases from `id` ends at an existing screen that is not an alias. */
  ghost predicate Resolves(g: Index, id: string) { exists y :: Canonical(g, y) && Reaches(g, id, y) }

  lemma {:induction false} IterAdd(g: Index, x: string, m: nat, n: nat)
    requires Iter(g, x, m).Some?
    ensures Iter(g, x, m + n) == Iter(g, Iter(g, x, m).value, n)
    decreases m
  {
    if m > 0 { IterAdd(g, Next(g, x).value, m - 1, n); }
  }

  /** A cycle is closed under taking the alias, and leads back from there. */
  lemma CycleNext(g: Index, x: string)
    requires OnCycle(g, x)
    ensures Next(g, x).Some? && OnCycle(g, Next(g, x).value) && Reaches(g, Next(g, x).value, x)
  {
    var n: nat :| n > 0 && Iter(g, x, n) == Some(x);
    var y := Next(g, x).value;
    assert Iter(g, y, n - 1) == Some(x);
    IterAdd(g, y, n - 1, 1);
    assert Iter(g, x, 1) == Iter(g, y, 0);
    assert Iter(g, y, n) == Some(y);
  }

  // ------------------------------------------------------------ the search

  datatype Mark = Visiting | Visited

  datatype Visits = Visits(marks: map<string, Mark>, errors: seq<Error>)

  function Visit(g: Index, v: Visits, id: string, path: seq<string>): Visits
    decreases |g.Keys - v.marks.Keys|
  {
    if id !in g || !g[id].mode.Alias? then v
    else if !Present(g[id].aliasOf) || g[id].aliasOf.value !in g then
      v.(errors := v.errors + [UnknownAliasTarget(g[id].aliasOf, id)])
    else if id in v.marks && v.marks[id].Visiting? then
      v.(errors := v.errors + [AliasCycle(path + [id])])
    else if id in v.marks then v
    else
      Unmarked(g, v.marks, id);
      var w := Visit(g, v.(marks := v.marks[id := Visiting]), g[id].aliasOf.value, path + [id]);
      w.(marks := w.marks[id := Visited])
  }

  lemma Unmarked(g: Index, marks: map<string, Mark>, id: string)
    requires id in g && id !in marks
    ensures |g.Keys - marks[id := Visiting].Keys| < |g.Keys - marks.Keys|
  {
    assert g.Keys - marks[id := Visiting].Keys == g.Keys - marks.Keys - {id};
  }

  /** The loop that starts a search from every screen. */
  function VisitAll(g: Index, v: Visits, ids: seq<string>): Visits {
    if ids == [] then v else Visit(g, VisitAll(g, v, ids[..|ids| - 1]), ids[|ids| - 1], [])
  }

  /** The path of an error walks along aliases, without repetition until its last step returns to it. */
  predicate Lasso(g: Index, path: seq<string>) {
    && |path| >= 2
    && (forall k | 0 <= k < |path| - 1 :: Next(g, path[k]) == Some(path[k + 1]))
    && (forall i, j | 0 <= i < j < |path| - 1 :: path[i] != path[j])
    && path[|path| - 1] in path[..|path| - 1]
  }

  predicate Reports(e: Error, x: string) { e.AliasCycle? && x in e.path }

  predicate Reported(errors: seq<Error>, x: string) { exists e <- errors :: Reports(e, x) }

  /** What is reported so far: lassos that do not touch. */
  ghost predicate ReportsOk(g: Index, errors: seq<Error>) {
    && (forall e <- errors | e.AliasCycle? :: Lasso(g, e.path))
    && (forall i, j, x {:trigger Reports(errors[i], x), Reports(errors[j], x)} |
          0 <= i < j < |errors| && Reports(errors[i], x) :: !Reports(errors[j], x))
  }

  /** The walk so far: its screens are being visited, and no others. */
  ghost predicate OnPath(g: Index, marks: map<string, Mark>, path: seq<string>, id: string) {
    && (forall k | 0 <= k < |path| - 1 :: Next(g, path[k]) == Some(path[k + 1]))
    && (path != [] ==> Next(g, path[|path| - 1]) == Some(id))
    && (forall i, j | 0 <= i < j < |path| :: path[i] != path[j])
    && (forall x <- path :: x in marks && marks[x] == Visiting)
    && (forall x <- marks :: marks[x] == Visiting ==> x in path)
  }

  /** Every reported screen is marked, and every cycle that has been left is reported. */
  ghost predicate MarksOk(g: Index, v: Visits) {
    && (forall x {:trigger Reported(v.errors, x)} :: Reported(v.errors, x) ==> x in v.marks)
    && (forall x {:trigger OnCycle(g, x)} | x in v.marks && v.marks[x] == Visited && OnCycle(g, x) ::
          Reported(v.errors, x))
  }

  lemma ReportedMore(errors: seq<Error>, e: Error, x: string)
    ensures Reported(errors + [e], x) <==> Reported(errors, x) || Reports(e, x)
  {
    if Reported(errors, x) {
      var d :| d in errors && Reports(d, x);
      assert d in errors + [e];
    }
    if Reports(e, x) { assert e in errors + [e]; }
  }

  /** A lasso holds the whole of a cycle it meets. */
  lemma {:induction false} LassoClosed(g: Index, path: seq<string>, x: string, n: nat)
    requires Lasso(g, path) && x in path && Iter(g, x, n).Some?
    ensures Iter(g, x, n).value in path
    decreases n
  {
    if n > 0 {
      var last := |path| - 1;
      assert x in path[..last] by { assert path == path[..last] + [path[last]]; }
      var k :| 0 <= k < last && path[k] == x;
      assert Next(g, x) == Some(path[k + 1]);
      LassoClosed(g, path, path[k + 1], n - 1);
    }
  }

  /** The last step of a lasso is on a cycle. */
  lemma {:induction false} LassoCycle(g: Index, path: seq<string>)
    requires Lasso(g, path)
    ensures OnCycle(g, path[|path| - 1])
  {
    var last := |path| - 1;
    var k :| 0 <= k < last && path[k] == path[last];
    AlongPath(g, path, k, last - k);
  }

  lemma {:induction false} AlongPath(g: Index, path: seq<string>, k: nat, n: nat)
    requires k + n < |path| && forall i | 0 <= i < |path| - 1 :: Next(g, path[i]) == Some(path[i + 1])
    ensures Iter(g, path[k], n) == Some(path[k + n])
    decreases n
  {
    if n > 0 { AlongPath(g, path, k + 1, n - 1); }
  }

  /** What a search that went from `v` to `w` may have done. */
  ghost predicate Kept(v: Visits, w: Visits, path: seq<string>) {
    && (forall x <- v.marks :: x in w.marks && w.marks[x] == v.marks[x])
    && (forall x <- w.marks :: w.marks[x] == Visiting ==> x in path)
  }

  ghost predicate NoneReported(errors: seq<Error>, path: seq<string>) { forall x <- path :: !Reported(errors, x) }

  /** What a search keeps, and that it reports the cycle it starts on. */
  lemma {:induction false} VisitKeeps(g: Index, v: Visits, id: string, path: seq<string>)
    requires OnPath(g, v.marks, path, id) && MarksOk(g, v) && ReportsOk(g, v.errors)
    requires NoneReported(v.errors, path)
    ensures var w := Visit(g, v, id, path);
            && MarksOk(g, w) && ReportsOk(g, w.errors)
            && Kept(v, w, path)
            && (Next(g, id).Some? ==> id in w.marks && (OnCycle(g, id) ==> Reported(w.errors, id)))
    decreases |g.Keys - v.marks.Keys|, 1
  {
    if Dangling(g, id) {
      forall x ensures Reported(Visit(g, v, id, path).errors, x) == Reported(v.errors, x) {
        ReportedMore(v.errors, UnknownAliasTarget(g[id].aliasOf, id), x);
      }
    } else if Next(g, id).None? {
    } else if id in v.marks && v.marks[id].Visiting? {
      ReportCycle(g, v, id, path);
    } else if id !in v.marks {
      Descend(g, v, id, path);
    }
  }

  lemma LassoClosing(g: Index, marks: map<string, Mark>, path: seq<string>, id: string)
    requires OnPath(g, marks, path, id) && id in marks && marks[id].Visiting?
    ensures Lasso(g, path + [id]) && forall x <- path + [id] :: x in path
  {
    assert id in path;
    assert (path + [id])[..|path|] == path;
  }

  lemma ReportCycle(g: Index, v: Visits, id: string, path: seq<string>)
    requires OnPath(g, v.marks, path, id) && MarksOk(g, v) && ReportsOk(g, v.errors)
    requires NoneReported(v.errors, path)
    requires id in v.marks && v.marks[id].Visiting?
    ensures var errors := v.errors + [AliasCycle(path + [id])];
            MarksOk(g, v.(errors := errors)) && ReportsOk(g, errors) && Reported(errors, id)
  {
    LassoClosing(g, v.marks, path, id);
    ReportsAppend(g, v.errors, AliasCycle(path + [id]));
    MarksAppend(g, v, AliasCycle(path + [id]));
    ReportedMore(v.errors, AliasCycle(path + [id]), id);
  }

  lemma ReportsAppend(g: Index, errors: seq<Error>, e: Error)
    requires ReportsOk(g, errors) && e.AliasCycle? && Lasso(g, e.path) && NoneReported(errors, e.path)
    ensures ReportsOk(g, errors + [e])
  {
    forall i, x | 0 <= i < |errors| && Reports(errors[i], x) ensures !Reports(e, x) {
      assert errors[i] in errors;
      assert Reported(errors, x);
    }
  }

  lemma MarksAppend(g: Index, v: Visits, e: Error)
    requires MarksOk(g, v) && e.AliasCycle? && forall x <- e.path :: x in v.marks
    ensures MarksOk(g, v.(errors := v.errors + [e]))
  {
    forall x ensures Reported(v.errors + [e], x) <==> Reported(v.errors, x) || Reports(e, x) {
      ReportedMore(v.errors, e, x);
    }
  }

  lemma {:induction false} Descend(g: Index, v: Visits, id: string, path: seq<string>)
    requires OnPath(g, v.marks, path, id) && MarksOk(g, v) && ReportsOk(g, v.errors)
    requires NoneReported(v.errors, path)
    requires Next(g, id).Some? && id !in v.marks
    ensures var w := Visit(g, v, id, path);
            && MarksOk(g, w) && ReportsOk(g, w.errors)
            && Kept(v, w, path)
            && id in w.marks && (OnCycle(g, id) ==> Reported(w.errors, id))
    decreases |g.Keys - v.marks.Keys|, 0
  {
    var target := Next(g, id).value;
    var inner := v.(marks := v.marks[id := Visiting]);
    Push(g, v, id, path);
    Unmarked(g, v.marks, id);
    VisitKeeps(g, inner, target, path + [id]);
    var w := Visit(g, inner, target, path + [id]);
    if OnCycle(g, id) {
      CycleNext(g, id);
      ReportedAround(g, w.errors, target, id);
    }
    Pop(g, v, w, id, path);
    VisitUnfolds(g, v, id, path);
  }

  lemma VisitUnfolds(g: Index, v: Visits, id: string, path: seq<string>)
    requires Next(g, id).Some? && id !in v.marks
    ensures var w := Visit(g, v.(marks := v.marks[id := Visiting]), Next(g, id).value, path + [id]);
            Visit(g, v, id, path) == w.(marks := w.marks[id := Visited])
  {
  }

  lemma Push(g: Index, v: Visits, id: string, path: seq<string>)
    requires OnPath(g, v.marks, path, id) && MarksOk(g, v)
    requires Next(g, id).Some? && id !in v.marks
    ensures OnPath(g, v.marks[id := Visiting], path + [id], Next(g, id).value)
    requires NoneReported(v.errors, path)
    ensures MarksOk(g, v.(marks := v.marks[id := Visiting])) && NoneReported(v.errors, path + [id])
  {
  }

  lemma Pop(g: Index, v: Visits, w: Visits, id: string, path: seq<string>)
    requires MarksOk(g, w) && id in w.marks && (OnCycle(g, id) ==> Reported(w.errors, id))
    requires id !in v.marks && Kept(v.(marks := v.marks[id := Visiting]), w, path + [id])
    ensures MarksOk(g, w.(marks := w.marks[id := Visited])) && Kept(v, w.(marks := w.marks[id := Visited]), path)
  {
  }

  lemma ReportedAround(g: Index, errors: seq<Error>, x: string, y: string)
    requires ReportsOk(g, errors) && Reported(errors, x) && Reaches(g, x, y)
    ensures Reported(errors, y)
  {
    var e :| e in errors && Reports(e, x);
    var n: nat :| Iter(g, x, n) == Some(y);
    LassoClosed(g, e.path, x, n);
    assert Reports(e, y);
  }

  // ------------------------------------------------- what all searches find

  predicate IsAliasError(e: Error) { e.AliasCycle? || e.UnknownAliasTarget? }

  ghost predicate NoneAlias(errors: seq<Error>) { forall e <- errors :: !IsAliasError(e) }

  /** What a search adds to the errors: the alias kinds only, and an unknown target only where there is one. */
  ghost predicate Added(g: Index, before: seq<Error>, after: seq<Error>) {
    && before <= after
    && forall e <- after[|before|..] ::
         IsAliasError(e) && (e.UnknownAliasTarget? ==> Dangling(g, e.id) && e.aliasOf == g[e.id].aliasOf)
  }

  lemma AddedTwice(g: Index, a: seq<Error>, b: seq<Error>, c: seq<Error>)
    requires Added(g, a, b) && Added(g, b, c)
    ensures Added(g, a, c)
  {
    assert c[|a|..] == b[|a|..] + c[|b|..];
  }

  lemma {:induction false} VisitAdds(g: Index, v: Visits, id: string, path: seq<string>)
    ensures Added(g, v.errors, Visit(g, v, id, path).errors)
    ensures Dangling(g, id) ==> UnknownAliasTarget(g[id].aliasOf, id) in Visit(g, v, id, path).errors
    decreases |g.Keys - v.marks.Keys|
  {
    if Next(g, id).Some? && id !in v.marks {
      Unmarked(g, v.marks, id);
      VisitAdds(g, v.(marks := v.marks[id := Visiting]), g[id].aliasOf.value, path + [id]);
    }
  }

  ghost predicate AllVisited(marks: map<string, Mark>) { forall x <- marks :: marks[x] == Visited }

  /** The state after the searches from `ids`. */
  ghost predicate Searched(g: Index, before: seq<Error>, ids: seq<string>, w: Visits) {
    && MarksOk(g, w) && ReportsOk(g, w.errors) && AllVisited(w.marks) && Added(g, before, w.errors)
    && (forall id <- ids :: Next(g, id).Some? ==> id in w.marks)
    && (forall id <- ids :: Dangling(g, id) ==> UnknownAliasTarget(g[id].aliasOf, id) in w.errors)
  }

  lemma {:induction false} VisitAllSearches(g: Index, before: seq<Error>, ids: seq<string>)
    requires NoneAlias(before)
    ensures Searched(g, before, ids, VisitAll(g, Visits(map[], before), ids))
  {
    var start := Visits(map[], before);
    if ids != [] {
      VisitAllSearches(g, before, ids[..|ids| - 1]);
      SearchOne(g, before, ids[..|ids| - 1], VisitAll(g, start, ids[..|ids| - 1]), ids[|ids| - 1]);
      assert ids == ids[..|ids| - 1] + [ids[|ids| - 1]];
    }
  }

  lemma SearchOne(g: Index, before: seq<Error>, ids: seq<string>, v: Visits, id: string)
    requires Searched(g, before, ids, v)
    ensures Searched(g, before, ids + [id], Visit(g, v, id, []))
  {
    VisitKeeps(g, v, id, []);
    VisitAdds(g, v, id, []);
    AddedTwice(g, before, v.errors, Visit(g, v, id, []).errors);
  }

  /** A cycle of aliases, as the set of its screens. */
  ghost function CycleOf(g: Index, x: string): set<string> { set y | y in g.Keys && Reaches(g, x, y) }

  ghost function Cycles(g: Index): set<set<string>> { set x | x in g.Keys && OnCycle(g, x) :: CycleOf(g, x) }

  function CycleErrors(errors: seq<Error>): nat {
    if errors == [] then 0
    else CycleErrors(errors[..|errors| - 1]) + (if errors[|errors| - 1].AliasCycle? then 1 else 0)
  }

  lemma ReachesTrans(g: Index, x: string, y: string, z: string)
    requires Reaches(g, x, y) && Reaches(g, y, z)
    ensures Reaches(g, x, z)
  {
    var m: nat :| Iter(g, x, m) == Some(y);
    var n: nat :| Iter(g, y, n) == Some(z);
    IterAdd(g, x, m, n);
  }

  /** What a cycle reaches leads back to it. */
  lemma {:induction false} CycleReturns(g: Index, x: string, n: nat)
    requires OnCycle(g, x) && Iter(g, x, n).Some?
    ensures Reaches(g, Iter(g, x, n).value, x)
    decreases n
  {
    if n == 0 {
      assert Iter(g, x, 0) == Some(x);
    } else {
      CycleNext(g, x);
      var y := Next(g, x).value;
      CycleReturns(g, y, n - 1);
      ReachesTrans(g, Iter(g, x, n).value, y, x);
    }
  }

  lemma SameCycle(g: Index, x: string, y: string)
    requires Reaches(g, x, y) && Reaches(g, y, x)
    ensures CycleOf(g, x) == CycleOf(g, y)
  {
    forall z | z in g.Keys ensures Reaches(g, x, z) <==> Reaches(g, y, z) {
      if Reaches(g, x, z) { ReachesTrans(g, y, x, z); }
      if Reaches(g, y, z) { ReachesTrans(g, x, y, z); }
    }
  }

  /** The cycle a lasso ends on. */
  ghost function Found(g: Index, e: Error): set<string>
    requires e.AliasCycle? && e.path != []
  {
    CycleOf(g, e.path[|e.path| - 1])
  }

  lemma LassoHoldsCycle(g: Index, e: Error)
    requires e.AliasCycle? && Lasso(g, e.path)
    ensures e.path[|e.path| - 1] in Found(g, e) && Found(g, e) in Cycles(g)
    ensures forall y <- Found(g, e) :: y in e.path
  {
    var last := e.path[|e.path| - 1];
    LassoCycle(g, e.path);
    CycleNext(g, last);
    assert Iter(g, last, 0) == Some(last);
    forall y | y in Found(g, e) ensures y in e.path {
      var n: nat :| Iter(g, last, n) == Some(y);
      LassoClosed(g, e.path, last, n);
    }
  }

  /** A screen on a cycle that a lasso holds is on the cycle of that lasso. */
  lemma LassoFinds(g: Index, e: Error, x: string)
    requires e.AliasCycle? && Lasso(g, e.path) && x in e.path && OnCycle(g, x)
    ensures CycleOf(g, x) == Found(g, e)
  {
    var last := |e.path| - 1;
    var k :| 0 <= k <= last && e.path[k] == x;
    AlongPath(g, e.path, k, last - k);
    CycleReturns(g, x, last - k);
    SameCycle(g, x, e.path[last]);
  }

  ghost function FoundIn(g: Index, errors: seq<Error>): set<set<string>> {
    set e | e in errors && e.AliasCycle? && Lasso(g, e.path) :: Found(g, e)
  }

  lemma FoundMore(g: Index, rest: seq<Error>, e: Error)
    ensures FoundIn(g, rest + [e]) ==
            FoundIn(g, rest) + (if e.AliasCycle? && Lasso(g, e.path) then {Found(g, e)} else {})
  {
    forall d ensures d in rest + [e] <==> d in rest || d == e {}
  }

  lemma {:induction false} FoundCount(g: Index, errors: seq<Error>)
    requires ReportsOk(g, errors)
    ensures |FoundIn(g, errors)| == CycleErrors(errors)
  {
    if errors != [] {
      var rest, e := errors[..|errors| - 1], errors[|errors| - 1];
      assert errors == rest + [e];
      ReportsPrefix(g, rest, e);
      FoundCount(g, rest);
      FoundMore(g, rest, e);
      if e.AliasCycle? { NewCycle(g, rest, e); }
    }
  }

  lemma ReportsPrefix(g: Index, rest: seq<Error>, e: Error)
    requires ReportsOk(g, rest + [e])
    ensures ReportsOk(g, rest) && (e.AliasCycle? ==> Lasso(g, e.path))
  {
    assert (rest + [e])[|rest|] == e;
    forall d | d in rest ensures d in rest + [e] {}
    forall i, j, x | 0 <= i < j < |rest| && Reports(rest[i], x) ensures !Reports(rest[j], x) {
      assert (rest + [e])[i] == rest[i] && (rest + [e])[j] == rest[j];
    }
  }

  lemma NewCycle(g: Index, rest: seq<Error>, e: Error)
    requires ReportsOk(g, rest + [e]) && e.AliasCycle? && Lasso(g, e.path)
    ensures Found(g, e) !in FoundIn(g, rest)
  {
    assert (rest + [e])[|rest|] == e;
    LassoHoldsCycle(g, e);
    forall i | 0 <= i < |rest| && rest[i].AliasCycle? && Lasso(g, rest[i].path)
      ensures Found(g, rest[i]) != Found(g, e)
    {
      LassoHoldsCycle(g, rest[i]);
      var x := e.path[|e.path| - 1];
      assert (rest + [e])[i] == rest[i];
      assert Reports((rest + [e])[|rest|], x) && !Reports((rest + [e])[i], x);
    }
  }

  /**
   * The searches report each cycle of aliases exactly once, whatever the order of the screens: some error
   * holds any given screen on a cycle, no two errors share a screen, and there are as many errors as cycles.
   */
  lemma CyclesReportedOnce(g: Index, before: seq<Error>, ids: seq<string>)
    requires NoneAlias(before) && forall id <- g :: id in ids
    ensures var errors := VisitAll(g, Visits(map[], before), ids).errors;
            && (forall x | OnCycle(g, x) :: Reported(errors, x))
            && (forall i, j, x | 0 <= i < j < |errors| && Reports(errors[i], x) :: !Reports(errors[j], x))
            && (forall e <- errors | e.AliasCycle? :: Lasso(g, e.path))
            && CycleErrors(errors) == |Cycles(g)|
  {
    VisitAllSearches(g, before, ids);
    var w := VisitAll(g, Visits(map[], before), ids);
    forall x | OnCycle(g, x) ensures Reported(w.errors, x) { CycleNext(g, x); }
    FoundCount(g, w.errors);
    FoundIsAll(g, w.errors);
  }

  lemma FoundIsAll(g: Index, errors: seq<Error>)
    requires ReportsOk(g, errors) && forall x | OnCycle(g, x) :: Reported(errors, x)
    ensures FoundIn(g, errors) == Cycles(g)
  {
    forall e | e in errors && e.AliasCycle? ensures Found(g, e) in Cycles(g) { LassoHoldsCycle(g, e); }
    forall x | x in g.Keys && OnCycle(g, x) ensures CycleOf(g, x) in FoundIn(g, errors) {
      assert Reported(errors, x);
      var e :| e in errors && Reports(e, x);
      LassoFinds(g, e, x);
    }
  }

  // ------------------------------------------------------- chains that resolve

  ghost predicate LeadsTo(g: Index, x: string, y: string) { exists n: nat :: n > 0 && Iter(g, x, n) == Some(y) }

  lemma LeadsNext(g: Index, x: string, y: string)
    requires Next(g, y).Some? && (x == y || LeadsTo(g, x, y))
    ensures LeadsTo(g, x, Next(g, y).value)
  {
    assert Iter(g, y, 1) == Iter(g, Next(g, y).value, 0);
    if x != y {
      var n: nat :| n > 0 && Iter(g, x, n) == Some(y);
      IterAdd(g, x, n, 1);
      assert Iter(g, x, n + 1) == Next(g, y);
    }
  }

  /** Without cycles and dangling aliases every chain ends: it cannot go on through new screens for ever. */
  lemma {:induction false} ChainEnds(g: Index, id: string, seen: set<string>)
    requires id in g && seen <= g.Keys && forall x <- seen :: LeadsTo(g, x, id)
    requires (forall x :: !OnCycle(g, x)) && forall x :: !Dangling(g, x)
    ensures Resolves(g, id)
    decreases |g.Keys - seen|
  {
    assert Iter(g, id, 0) == Some(id);
    assert !OnCycle(g, id) && !Dangling(g, id);
    if g[id].mode.Alias? {
      var target := Next(g, id).value;
      assert id !in seen;
      assert g.Keys - (seen + {id}) == g.Keys - seen - {id};
      forall x | x in seen + {id} ensures LeadsTo(g, x, target) { LeadsNext(g, x, id); }
      ChainEnds(g, target, seen + {id});
      assert Iter(g, id, 1) == Iter(g, target, 0);
      var y :| Canonical(g, y) && Reaches(g, target, y);
      ReachesTrans(g, id, target, y);
    } else {
      assert Canonical(g, id) && Reaches(g, id, id);
    }
  }

  lemma {:induction false} ResolvedOffCycle(g: Index, x: string, n: nat)
    requires Iter(g, x, n).Some? && Canonical(g, Iter(g, x, n).value)
    ensures !OnCycle(g, x) && !Dangling(g, x)
    decreases n
  {
    if OnCycle(g, x) {
      CycleNext(g, x);
      ResolvedOffCycle(g, Next(g, x).value, n - 1);
    }
  }

  lemma ResolvedIsClean(g: Index, x: string)
    requires Resolves(g, x)
    ensures !OnCycle(g, x) && !Dangling(g, x)
  {
    var y :| Canonical(g, y) && Reaches(g, x, y);
    var n: nat :| Iter(g, x, n) == Some(y);
    ResolvedOffCycle(g, x, n);
  }

  /** All is well with the aliases exactly when every chain of them resolves. */
  lemma ResolveIff(g: Index)
    ensures (forall x <- g :: Resolves(g, x)) <==> (forall x :: !OnCycle(g, x)) && (forall x :: !Dangling(g, x))
  {
    if (forall x :: !OnCycle(g, x)) && (forall x :: !Dangling(g, x)) {
      forall x | x in g ensures Resolves(g, x) { ChainEnds(g, x, {}); }
    }
    if forall x <- g :: Resolves(g, x) {
      forall x ensures !OnCycle(g, x) && !Dangling(g, x) {
        if x in g { ResolvedIsClean(g, x); } else if OnCycle(g, x) { CycleNext(g, x); }
      }
    }
  }

  /** The searches add nothing to the errors exactly when every screen resolves. */
  lemma NoAliasErrors(g: Index, before: seq<Error>, ids: seq<string>)
    requires NoneAlias(before) && forall id :: id in g <==> id in ids
    ensures before <= VisitAll(g, Visits(map[], before), ids).errors
    ensures VisitAll(g, Visits(map[], before), ids).errors == before <==> forall x <- g :: Resolves(g, x)
  {
    VisitAllSearches(g, before, ids);
    ResolveIff(g);
    var errors := VisitAll(g, Visits(map[], before), ids).errors;
    if errors == before {
      forall x ensures !OnCycle(g, x) && !Dangling(g, x) {
        if OnCycle(g, x) { CycleNext(g, x); }
      }
    } else {
      var e := errors[|before|];
      assert e in errors[|before|..];
      if e.AliasCycle? { LassoCycle(g, e.path); }
    }
  }
}
