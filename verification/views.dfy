/**
 * The view tree that the placement code searches (FrenchToast/Classes/UIView+Utility.swift)
 * and the metrics of the superview a toast is placed in.
 */
module Views {
  import opened Wrappers
  import opened Geometry

  /** The class of a view, as far as the toast code asks about it. */
  datatype Kind = NavigationBar | TabBar | Toolbar | PlainView

  datatype View = View(kind: Kind, isHidden: bool, frame: Rect, subviews: seq<View>)

  /** `allSubviews`: every child in order, each followed by its own `allSubviews`. */
  function AllSubviews(v: View): seq<View>
    decreases v
  {
    Flatten(v.subviews)
  }

  /** The `flatMap { [$0] + $0.allSubviews }` over a list of sibling views. */
  function Flatten(vs: seq<View>): seq<View>
    decreases vs
  {
    if vs == [] then [] else [vs[0]] + AllSubviews(vs[0]) + Flatten(vs[1..])
  }

  /** Number of views in the tree rooted at `v`, `v` included. */
  function NodeCount(v: View): nat
    decreases v
  {
    1 + ForestCount(v.subviews)
  }

  function ForestCount(vs: seq<View>): nat
    decreases vs
  {
    if vs == [] then 0 else NodeCount(vs[0]) + ForestCount(vs[1..])
  }

  /** `w` is a strict descendant of `v`: a child, or a descendant of a child. */
  ghost predicate IsDescendant(w: View, v: View)
    decreases v
  {
    exists i :: 0 <= i < |v.subviews| && (w == v.subviews[i] || IsDescendant(w, v.subviews[i]))
  }

  /** Flattening distributes over concatenation of sibling lists, so order is kept. */
  lemma {:induction false} FlattenAppend(xs: seq<View>, ys: seq<View>)
    ensures Flatten(xs + ys) == Flatten(xs) + Flatten(ys)
    decreases xs
  {
    if xs == [] {
      assert xs + ys == ys;
    } else {
      assert (xs + ys)[0] == xs[0];
      assert (xs + ys)[1..] == xs[1..] + ys;
      FlattenAppend(xs[1..], ys);
    }
  }

  /**
   * Pre-order: the `i`-th child sits right after everything its elder siblings
   * contribute, and its own `allSubviews` follow it immediately.
   */
  lemma PreorderPosition(v: View, i: nat)
    requires i < |v.subviews|
    ensures var p := |Flatten(v.subviews[..i])|;
            var c := v.subviews[i];
            p + 1 + |AllSubviews(c)| <= |AllSubviews(v)| &&
            AllSubviews(v)[p] == c &&
            AllSubviews(v)[p + 1 .. p + 1 + |AllSubviews(c)|] == AllSubviews(c)
  {
    var xs, ys := v.subviews[..i], v.subviews[i..];
    assert v.subviews == xs + ys;
    FlattenAppend(xs, ys);
    assert ys[0] == v.subviews[i];
    assert Flatten(ys) == [ys[0]] + AllSubviews(ys[0]) + Flatten(ys[1..]);
  }

  /** The length of `allSubviews` is the number of strict descendants. */
  lemma {:induction false} AllSubviewsLength(v: View)
    ensures |AllSubviews(v)| == NodeCount(v) - 1
    decreases v, 1
  {
    FlattenLength(v.subviews);
  }

  lemma {:induction false} FlattenLength(vs: seq<View>)
    ensures |Flatten(vs)| == ForestCount(vs)
    decreases vs, 0
  {
    if vs != [] {
      AllSubviewsLength(vs[0]);
      FlattenLength(vs[1..]);
    }
  }

  /** Every view in `allSubviews` is strictly smaller, so the receiver is never among them. */
  lemma {:induction false} AllSubviewsSmaller(v: View)
    ensures forall w :: w in AllSubviews(v) ==> NodeCount(w) < NodeCount(v)
    ensures v !in AllSubviews(v)
    ensures v.subviews == [] ==> AllSubviews(v) == []
    decreases v, 1
  {
    FlattenSmaller(v.subviews);
  }

  lemma {:induction false} FlattenSmaller(vs: seq<View>)
    ensures forall w :: w in Flatten(vs) ==> NodeCount(w) <= ForestCount(vs)
    decreases vs, 0
  {
    if vs != [] {
      AllSubviewsSmaller(vs[0]);
      FlattenSmaller(vs[1..]);
    }
  }

  /** `allSubviews` holds exactly the strict descendants of the receiver. */
  lemma {:induction false} AllSubviewsAreDescendants(v: View)
    ensures forall w :: w in AllSubviews(v) <==> IsDescendant(w, v)
    decreases v, 1
  {
    forall i | 0 <= i < |v.subviews|
      ensures forall w :: w in AllSubviews(v.subviews[i]) <==> IsDescendant(w, v.subviews[i])
    {
      AllSubviewsAreDescendants(v.subviews[i]);
    }
    FlattenMembers(v.subviews);
  }

  lemma {:induction false} FlattenMembers(vs: seq<View>)
    ensures forall w :: w in Flatten(vs) <==>
      exists i :: 0 <= i < |vs| && (w == vs[i] || w in AllSubviews(vs[i]))
    decreases vs
  {
    if vs != [] {
      FlattenMembers(vs[1..]);
      forall w | w in Flatten(vs)
        ensures exists i :: 0 <= i < |vs| && (w == vs[i] || w in AllSubviews(vs[i]))
      {
        if w !in [vs[0]] + AllSubviews(vs[0]) {
          assert w in Flatten(vs[1..]);
          var j :| 0 <= j < |vs[1..]| && (w == vs[1..][j] || w in AllSubviews(vs[1..][j]));
          assert vs[1..][j] == vs[j + 1];
        }
      }
      forall w, i | 0 <= i < |vs| && (w == vs[i] || w in AllSubviews(vs[i]))
        ensures w in Flatten(vs)
      {
        if i > 0 {
          assert vs[1..][i - 1] == vs[i];
        }
      }
    }
  }

  /** The first view of `s` whose class is `k`: the `for case let ... as T` search. */
  function FirstOfKind(s: seq<View>, k: Kind): (r: Option<View>)
    ensures r.Some? ==> exists i :: 0 <= i < |s| && s[i] == r.value && s[i].kind == k &&
                                    forall j :: 0 <= j < i ==> s[j].kind != k
    ensures r.None? <==> forall i :: 0 <= i < |s| ==> s[i].kind != k
    decreases s
  {
    if s == [] then None
    else if s[0].kind == k then Some(s[0])
    else
      var r := FirstOfKind(s[1..], k);
      assert r.Some? ==> exists i :: 1 <= i < |s| && s[i] == r.value && s[i].kind == k &&
                                     forall j :: 0 <= j < i ==> s[j].kind != k by {
        if r.Some? {
          var i :| 0 <= i < |s[1..]| && s[1..][i] == r.value && s[1..][i].kind == k &&
                   forall j :: 0 <= j < i ==> s[1..][j].kind != k;
          assert forall j :: 1 <= j < i + 1 ==> s[j] == s[1..][j - 1];
        }
      }
      r
  }

  /**
   * `traverseSubviewsAndFindType`: the first view of class `k` in `allSubviews`,
   * or none exactly when no strict descendant has that class.
   */
  function TraverseSubviewsAndFindType(v: View, k: Kind): (r: Option<View>)
    ensures r.Some? ==> r.value.kind == k && IsDescendant(r.value, v)
    ensures r.Some? ==> exists i :: 0 <= i < |AllSubviews(v)| && AllSubviews(v)[i] == r.value &&
                                    forall j :: 0 <= j < i ==> AllSubviews(v)[j].kind != k
    ensures r.None? <==> forall w :: IsDescendant(w, v) ==> w.kind != k
  {
    AllSubviewsAreDescendants(v);
    FirstOfKind(AllSubviews(v), k)
  }

  /** UIUserInterfaceSizeClass */
  datatype SizeClass = Unspecified | Compact | Regular

  /**
   * The superview a toast is placed in: its own view (frame and subview tree),
   * safe-area insets, size classes, and the `isCompact` flag, whose definition
   * this model does not cover; it is an input here.
   */
  datatype Superview = Superview(
    view: View,
    safeAreaInsets: Insets,
    horizontalSizeClass: SizeClass,
    verticalSizeClass: SizeClass,
    isCompact: bool)
  {
    /** `superview.frame.width` */
    function Width(): real { view.frame.Width() }

    /** `superview.frame.height` */
    function Height(): real { view.frame.Height() }

    /** The first view of class `k` below this superview, if it is not hidden. */
    function VisibleBar(k: Kind): Option<View>
    {
      match TraverseSubviewsAndFindType(view, k)
      case Some(bar) => if bar.isHidden == false then Some(bar) else None
      case None => None
    }
  }
}
