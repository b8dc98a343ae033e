/**
 * The list renderer `DataListInner` of src/components/headlessList.tsx. Every
 * render derives four booleans from the props, lays out its regions from them
 * and composes the container's class; an effect calls `loadNextPage` when the
 * sentinel's intersection entry and the pagination flags allow it. Optional
 * booleans that the effect lists as dependencies keep `undefined` apart from `false`
 * (`Option<bool>`, since React compares dependencies with `Object.is`) and are read
 * through `On` where the code tests them; `hasError` is only tested, so it is a
 * `bool` with `undefined` read as false. React elements are opaque.
 */
module HeadlessList {
  import opened Wrappers
  import ClassNames
  import Intersection

  /** Identity of a `loadNextPage` function object (the effect compares it by identity). */
  type CallbackId = nat

  /** The props that decide what is rendered and when `loadNextPage` is called. */
  datatype ListProps<T> = ListProps(
    data: seq<T>,
    isLoading: Option<bool>,          // None is `undefined`
    hasError: bool,
    hasNextPage: Option<bool>,
    isFetchingNextPage: Option<bool>,
    loadNextPage: Option<CallbackId>,
    isReverse: bool,
    className: Option<string>,
    hasTitle: bool)                 // `title` is truthy

  /** JavaScript truthiness of an optional boolean prop. */
  predicate On(b: Option<bool>) { b == Some(true) }

  // ---------------------------------------------------------------- the four render booleans

  predicate IsInitialShimmerShown<T>(p: ListProps<T>) { |p.data| == 0 && On(p.isLoading) }

  predicate IsEmptyStateShown<T>(p: ListProps<T>) { |p.data| == 0 && !On(p.isLoading) }

  predicate IsListDataShown<T>(p: ListProps<T>) { |p.data| != 0 }

  predicate IsFetchMoreLoadingShown<T>(p: ListProps<T>) {
    On(p.isFetchingNextPage) && On(p.hasNextPage) && !p.hasError
  }

  // ---------------------------------------------------------------- rendering

  /** The children of the container, in document order; the sentinel carries its "Loading..." flag. */
  datatype Region<E> = Heading | Shimmer | EmptyState | Item(element: E) | Sentinel(loadingMore: bool)

  /** `data.map(children)`: `children` applied to each element and its index, starting at `offset`. */
  function MapIndexed<T, E>(data: seq<T>, children: (T, nat) -> E, offset: nat): (items: seq<Region<E>>)
    ensures |items| == |data|
    ensures forall i :: 0 <= i < |data| ==> items[i] == Item(children(data[i], offset + i))
    decreases |data|
  {
    if data == [] then []
    else [Item(children(data[0], offset))] + MapIndexed(data[1..], children, offset + 1)
  }

  /** Lines 93-97: the body regions, guarded by the three render booleans. */
  function Body<T, E>(p: ListProps<T>, children: (T, nat) -> E): seq<Region<E>> {
    (if IsInitialShimmerShown(p) then [Shimmer] else [])
    + (if IsEmptyStateShown(p) then [EmptyState] else [])
    + (if IsListDataShown(p) then MapIndexed(p.data, children, 0) else [])
  }

  /** Lines 91-101: the heading when `title` is truthy, the body, then the sentinel. */
  function Render<T, E>(p: ListProps<T>, children: (T, nat) -> E): seq<Region<E>> {
    (if p.hasTitle then [Heading] else []) + Body(p, children) + [Sentinel(IsFetchMoreLoadingShown(p))]
  }

  /** `className` as the composer's argument: absent is `undefined`. */
  function ClassNameArg(className: Option<string>): ClassNames.ClassArg {
    match className
    case None => ClassNames.Undef
    case Some(c) => ClassNames.Str(c)
  }

  /** Lines 84-88: the container's class. */
  function ContainerClass<T>(p: ListProps<T>): string {
    ClassNames.ClassNameCreator([
      ClassNames.Str("flex overflow-auto"),
      ClassNames.Str(if p.isReverse then "flex-col-reverse justify-items-end" else "flex-col"),
      ClassNameArg(p.className)])
  }

  // ---------------------------------------------------------------- the pagination effect

  /** Line 72: the guard, with a null entry read as not intersecting. */
  predicate ShouldLoadNextPage<T>(entry: Option<Intersection.Entry>, p: ListProps<T>) {
    && entry.Some? && entry.value.isIntersecting
    && On(p.hasNextPage) && !On(p.isLoading) && !On(p.isFetchingNextPage) && !p.hasError
  }

  /** Line 75: the dependency list of the effect; `hasError` is not in it. */
  datatype Deps = Deps(
    entry: Option<Intersection.Entry>,
    hasNextPage: Option<bool>,
    isLoading: Option<bool>,
    loadNextPage: Option<CallbackId>,
    isFetchingNextPage: Option<bool>)

  function DepsOf<T>(entry: Option<Intersection.Entry>, p: ListProps<T>): Deps {
    Deps(entry, p.hasNextPage, p.isLoading, p.loadNextPage, p.isFetchingNextPage)
  }

  /** React runs the effect on the first render and whenever a dependency differs from the previous render's. */
  predicate EffectRuns(prev: Option<Deps>, cur: Deps) {
    prev != Some(cur)
  }

  /** One render: the entry the hook returned and the props. */
  datatype RenderInput<T> = RenderInput(entry: Option<Intersection.Entry>, props: ListProps<T>)

  /** Whether a render with dependencies `prev` before it calls `loadNextPage` (`loadNextPage?.()` skips an absent one). */
  predicate LoadsNextPage<T>(prev: Option<Deps>, r: RenderInput<T>) {
    EffectRuns(prev, DepsOf(r.entry, r.props))
    && ShouldLoadNextPage(r.entry, r.props) && r.props.loadNextPage.Some?
  }

  /** Number of `loadNextPage` calls over a history of renders that follows `prev`. */
  function LoadCalls<T>(prev: Option<Deps>, renders: seq<RenderInput<T>>): nat
    decreases |renders|
  {
    if renders == [] then 0
    else
      (if LoadsNextPage(prev, renders[0]) then 1 else 0)
      + LoadCalls(Some(DepsOf(renders[0].entry, renders[0].props)), renders[1..])
  }

  /** Number of renders in the history whose dependencies differ from the previous render's. */
  function DepChanges<T>(prev: Option<Deps>, renders: seq<RenderInput<T>>): nat
    decreases |renders|
  {
    if renders == [] then 0
    else
      (if EffectRuns(prev, DepsOf(renders[0].entry, renders[0].props)) then 1 else 0)
      + DepChanges(Some(DepsOf(renders[0].entry, renders[0].props)), renders[1..])
  }

  // ---------------------------------------------------------------- lemmas: render policy

  /**
   * What the render shows: the shimmer iff the data is empty and loading, the empty
   * state iff empty and not loading, items iff the data is non-empty, and the
   * sentinel's "Loading..." iff a next page is being fetched and there is no error.
   */
  lemma RenderBooleans<T, E>(p: ListProps<T>, children: (T, nat) -> E)
    ensures Shimmer in Render(p, children) <==> p.data == [] && On(p.isLoading)
    ensures EmptyState in Render(p, children) <==> p.data == [] && !On(p.isLoading)
    ensures (exists i :: 0 <= i < |Render(p, children)| && Render(p, children)[i].Item?) <==> p.data != []
    ensures Sentinel(true) in Render(p, children) <==> On(p.isFetchingNextPage) && On(p.hasNextPage) && !p.hasError
  {
    var r := Render(p, children);
    var h := if p.hasTitle then [Heading] else [];
    var b := Body(p, children);
    assert r == h + b + [Sentinel(IsFetchMoreLoadingShown(p))];
    BodyCases(p, children);
    RenderEndsWithSentinel(p, children);
    if p.data != [] {
      assert r[|h|] == b[0];
      assert forall i :: 0 <= i < |b| ==> b[i].Item?;
    }
  }

  /** Exactly one of shimmer, empty state and list data is shown, for every input. */
  lemma ExactlyOneBodyRegion<T>(p: ListProps<T>)
    ensures (if IsInitialShimmerShown(p) then 1 else 0) + (if IsEmptyStateShown(p) then 1 else 0)
          + (if IsListDataShown(p) then 1 else 0) == 1
  {
  }

  /** The body is the shimmer, the empty state, or every element mapped with its index in input order. */
  lemma BodyCases<T, E>(p: ListProps<T>, children: (T, nat) -> E)
    ensures p.data == [] && On(p.isLoading) ==> Body(p, children) == [Shimmer]
    ensures p.data == [] && !On(p.isLoading) ==> Body(p, children) == [EmptyState]
    ensures p.data != [] ==>
      |Body(p, children)| == |p.data|
      && forall i :: 0 <= i < |p.data| ==> Body(p, children)[i] == Item(children(p.data[i], i))
  {
    if p.data == [] {
      assert !IsListDataShown(p);
    } else {
      assert !IsInitialShimmerShown(p) && !IsEmptyStateShown(p);
      assert Body(p, children) == MapIndexed(p.data, children, 0);
    }
  }

  /** The render always ends with the one sentinel, whose "Loading..." depends only on the pagination flags and the error, never on the data. */
  lemma RenderEndsWithSentinel<T, E>(p: ListProps<T>, children: (T, nat) -> E)
    ensures var r := Render(p, children);
      |r| > 0 && r[|r| - 1] == Sentinel(On(p.isFetchingNextPage) && On(p.hasNextPage) && !p.hasError)
      && forall i :: 0 <= i < |r| - 1 ==> !r[i].Sentinel?
  {
    var b := Body(p, children);
    var pre := (if p.hasTitle then [Heading] else []) + b;
    assert Render(p, children) == pre + [Sentinel(IsFetchMoreLoadingShown(p))];
    BodyCases(p, children);
    assert forall i :: 0 <= i < |b| ==> !b[i].Sentinel?;
    assert forall i :: 0 <= i < |pre| ==> !pre[i].Sentinel?;
  }

  /** The heading comes first exactly when `title` is truthy, and the body follows it. */
  lemma RenderStartsWithHeading<T, E>(p: ListProps<T>, children: (T, nat) -> E)
    ensures var r := Render(p, children);
      (p.hasTitle <==> r[0] == Heading)
      && r[(if p.hasTitle then 1 else 0)..|r| - 1] == Body(p, children)
  {
    var r := Render(p, children);
    var b := Body(p, children);
    BodyCases(p, children);
    if !p.hasTitle {
      assert r[0] == b[0];
    }
  }

  /** The container class is "flex overflow-auto", then the direction classes, then `className` when it is truthy. */
  lemma ContainerClassSpec<T>(p: ListProps<T>)
    ensures ContainerClass(p) ==
      "flex overflow-auto" + " "
      + (if p.isReverse then "flex-col-reverse justify-items-end" else "flex-col")
      + (if p.className.Some? && p.className.value != "" then " " + p.className.value else "")
  {
    ComposeThree("flex overflow-auto", if p.isReverse then "flex-col-reverse justify-items-end" else "flex-col",
                 ClassNameArg(p.className));
  }

  /** Two non-empty class strings and an optional third compose to the two, then the third after a space when it is truthy. */
  lemma ComposeThree(base: string, dir: string, extra: ClassNames.ClassArg)
    requires base != "" && dir != ""
    ensures ClassNames.ClassNameCreator([ClassNames.Str(base), ClassNames.Str(dir), extra])
         == base + " " + dir + (if ClassNames.Truthy(extra) then " " + ClassNames.Text(extra) else "")
  {
    FilterThree(ClassNames.Str(base), ClassNames.Str(dir), extra);
    var kept2 := [ClassNames.Str(base), ClassNames.Str(dir)];
    assert ClassNames.Join(kept2) == base + " " + dir by {
      assert kept2[1..] == [ClassNames.Str(dir)];
    }
    if ClassNames.Truthy(extra) {
      ClassNames.JoinAppend(kept2, [extra]);
      assert ClassNames.Join([extra]) == ClassNames.Text(extra);
    } else {
      assert kept2 + [] == kept2;
    }
  }

  /** Filtering three arguments whose first two are truthy keeps those two and the third iff it is truthy. */
  lemma FilterThree(a: ClassNames.ClassArg, b: ClassNames.ClassArg, c: ClassNames.ClassArg)
    requires ClassNames.Truthy(a) && ClassNames.Truthy(b)
    ensures ClassNames.Filter([a, b, c]) == [a, b] + (if ClassNames.Truthy(c) then [c] else [])
  {
    assert [a, b, c][1..] == [b, c];
    assert [b, c][1..] == [c];
    ClassNames.FilterSingle(c);
  }

  // ---------------------------------------------------------------- lemmas: pagination

  /** On an effect run, `loadNextPage` is called iff the entry intersects, a next page exists, nothing is loading or fetching, and there is no error. */
  lemma TriggerExact<T>(prev: Option<Deps>, r: RenderInput<T>)
    requires EffectRuns(prev, DepsOf(r.entry, r.props)) && r.props.loadNextPage.Some?
    ensures LoadCalls(prev, [r]) == 1 <==>
      r.entry.Some? && r.entry.value.isIntersecting && On(r.props.hasNextPage) && !On(r.props.isLoading)
      && !On(r.props.isFetchingNextPage) && !r.props.hasError
    ensures LoadCalls(prev, [r]) <= 1
  {
    assert [r][1..] == [];
  }

  /** A change of `hasError` alone does not re-run the effect, so it never causes a call. */
  lemma HasErrorAloneDoesNotRerun<T>(entry: Option<Intersection.Entry>, p: ListProps<T>, hasError: bool)
    ensures !EffectRuns(Some(DepsOf(entry, p)), DepsOf(entry, p.(hasError := hasError)))
    ensures !LoadsNextPage(Some(DepsOf(entry, p)), RenderInput(entry, p.(hasError := hasError)))
  {
  }

  /** Over any history, calls never outnumber the renders that changed a dependency. */
  lemma {:induction false} LoadCallsBounded<T>(prev: Option<Deps>, renders: seq<RenderInput<T>>)
    ensures LoadCalls(prev, renders) <= DepChanges(prev, renders)
    ensures LoadCalls(prev, renders) <= |renders|
    decreases |renders|
  {
    if renders != [] {
      LoadCallsBounded(Some(DepsOf(renders[0].entry, renders[0].props)), renders[1..]);
    }
  }

  /** While the entry object and the other dependencies stay the same, re-renders never call `loadNextPage` again. */
  lemma {:induction false} StableDepsNoRefire<T>(d: Deps, renders: seq<RenderInput<T>>)
    requires forall i :: 0 <= i < |renders| ==> DepsOf(renders[i].entry, renders[i].props) == d
    ensures LoadCalls(Some(d), renders) == 0
    decreases |renders|
  {
    if renders != [] {
      assert DepsOf(renders[0].entry, renders[0].props) == d;
      forall i | 0 <= i < |renders[1..]| ensures DepsOf(renders[1..][i].entry, renders[1..][i].props) == d {
        assert renders[1..][i] == renders[i + 1];
      }
      StableDepsNoRefire(d, renders[1..]);
    }
  }

  /**
   * `isLoading` going from `undefined` to `false` is a dependency change: with the
   * same intersecting entry and a next page, the effect runs again and calls
   * `loadNextPage` a second time, though the guard reads both values alike.
   */
  lemma UndefinedToFalseRefires<T>(e: Intersection.Entry, p: ListProps<T>)
    requires e.isIntersecting && On(p.hasNextPage) && !On(p.isFetchingNextPage) && !p.hasError
    requires p.loadNextPage.Some? && p.isLoading == None
    ensures LoadCalls(None, [RenderInput(Some(e), p), RenderInput(Some(e), p.(isLoading := Some(false)))]) == 2
  {
    var rs := [RenderInput(Some(e), p), RenderInput(Some(e), p.(isLoading := Some(false)))];
    var d0 := DepsOf(rs[0].entry, rs[0].props);
    var d1 := DepsOf(rs[1].entry, rs[1].props);
    assert d0.isLoading != d1.isLoading;
    assert LoadsNextPage(None, rs[0]) && LoadsNextPage(Some(d0), rs[1]);
    assert rs[1..] == [rs[1]];
    assert [rs[1]][1..] == [];
    assert LoadCalls(Some(d0), [rs[1]]) == 1 + LoadCalls(Some(d1), rs[2..]);
  }
}
