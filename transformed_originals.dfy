/**
 * How a PartDesign transformation feature picks the features it copies: the
 * base object lookup, the filtering of the originals, the order in which they
 * are visited, and the collection of the shapes to transform with duplicates
 * dropped.
 *
 * Geometry is opaque: a shape is a token, the solids of a feature's shape and
 * the solid a sub-element lies in are given with the feature.
 */
module TransformedOriginals {
  import opened Wrappers
  import Sorting
  import TransformedShapes

  /** What a linked object is, as far as the transformation cares. */
  datatype Kind = Other | PartFeature | DesignFeature | AddSubFeature

  /** Every PartDesign feature is a Part feature. */
  predicate IsPart(k: Kind) { k != Other }

  predicate IsDesign(k: Kind) { k == DesignFeature || k == AddSubFeature }

  /** The result of looking a sub-element name up in a feature's shape. */
  datatype SubShape = MissingSub | NoSolid | InSolid(solid: nat)

  /** One add or cut shape of an additive/subtractive feature; `None` is a null shape. */
  datatype Tool = Tool(shape: Option<nat>, fuse: bool)

  /**
   * A linked feature: its object id, full name, kind, `Suppress` flag, whether
   * it is a sibling of the transformation in the body, its add/sub shapes,
   * the solids of its shape and the lookup of its sub-element names.
   */
  datatype Feature = Feature(id: nat, name: string, kind: Kind, suppressed: bool, sibling: bool,
                             tools: seq<Tool>, solids: seq<nat>, subShapes: map<string, SubShape>)

  /** An entry of `OriginalSubs`: the object and its sub-element names. */
  datatype Link = Link(feature: Feature, subs: seq<string>)

  // ---------------------------------------------------------------------
  // getBaseObject

  const NotPartMsg := "Transformation feature Linked object is not a Part object"
  const NoOriginalsMsg := "No originals linked to the transformed feature."

  /**
   * `getBaseObject`: the base feature when there is one, else the first
   * original when it is a Part feature. Otherwise the lookup fails, with a
   * message naming why; a silent lookup gives no object instead.
   */
  function GetBaseObject(base: Option<nat>, links: seq<Link>, silent: bool): (r: Result<Option<nat>>)
    ensures base.Some? ==> r == Ok(base)
    ensures base.None? && |links| > 0 && IsPart(links[0].feature.kind) ==> r == Ok(Some(links[0].feature.id))
    ensures r.Err? <==> !silent && base.None? && (|links| == 0 || !IsPart(links[0].feature.kind))
    ensures r.Err? ==> r.msg == if |links| == 0 then NoOriginalsMsg else NotPartMsg
  {
    if base.Some? then Ok(base)
    else
      var err := if |links| == 0 then Some(NoOriginalsMsg)
                 else if IsPart(links[0].feature.kind) then None
                 else Some(NotPartMsg);
      if err.Some? then (if silent then Ok(None) else Err(err.value))
      else Ok(Some(links[0].feature.id))
  }

  /** A silent lookup gives what the loud one gives, with no object in place of the failure. */
  lemma {:induction false} SilentLookupAgrees(base: Option<nat>, links: seq<Link>)
    ensures GetBaseObject(base, links, true) ==
      if GetBaseObject(base, links, false).Err? then Ok(None) else GetBaseObject(base, links, false)
    ensures GetBaseObject(base, links, true).Ok?
  {
  }

  // ---------------------------------------------------------------------
  // Keeping the PartDesign features

  /** The entries whose object is a PartDesign feature, in order. */
  function DesignOnly(links: seq<Link>): seq<Link>
  {
    if |links| == 0 then [] else (if IsDesign(links[0].feature.kind) then [links[0]] else []) + DesignOnly(links[1..])
  }

  /** Exactly the PartDesign entries stay. */
  lemma {:induction false} DesignOnlyMembers(xs: seq<Link>)
    ensures forall l :: l in DesignOnly(xs) <==> l in xs && IsDesign(l.feature.kind)
  {
    if |xs| > 0 {
      DesignOnlyMembers(xs[1..]);
      assert xs == [xs[0]] + xs[1..];
    }
  }

  /** Filtering distributes over concatenation. */
  lemma {:induction false} DesignOnlyAppend(xs: seq<Link>, ys: seq<Link>)
    ensures DesignOnly(xs + ys) == DesignOnly(xs) + DesignOnly(ys)
  {
    if |xs| > 0 {
      DesignOnlyAppend(xs[1..], ys);
      assert (xs + ys)[1..] == xs[1..] + ys;
    } else {
      assert xs + ys == ys;
    }
  }

  /** A list of PartDesign features only is left as it is. */
  lemma {:induction false} DesignOnlyAll(xs: seq<Link>)
    requires forall i :: 0 <= i < |xs| ==> IsDesign(xs[i].feature.kind)
    ensures DesignOnly(xs) == xs
  {
    if |xs| > 0 {
      DesignOnlyAll(xs[1..]);
    }
  }

  /** The erase loop at the start of `execute`. */
  method KeepDesignFeatures(links: seq<Link>) returns (r: seq<Link>)
    ensures r == DesignOnly(links)
  {
    r := links;
    var i := 0;
    while i < |r|
      invariant 0 <= i <= |r|
      invariant r[..i] + DesignOnly(r[i..]) == DesignOnly(links)
      decreases |r| - i
    {
      if !IsDesign(r[i].feature.kind) {
        assert r[i..] == [r[i]] + r[i + 1..];
        r := r[..i] + r[i + 1..];
      } else {
        assert r[i..] == [r[i]] + r[i + 1..];
        assert r[..i + 1] == r[..i] + [r[i]];
        i := i + 1;
      }
    }
  }

  // ---------------------------------------------------------------------
  // The visiting order

  /** Original `p` is in the body; `body` maps object ids to positions in the body's `Group`. */
  predicate Found(links: seq<Link>, body: map<nat, nat>, p: nat)
  {
    p < |links| && links[p].feature.id in body
  }

  function BodyIndex(links: seq<Link>, body: map<nat, nat>, p: nat): nat
    requires Found(links, body, p)
  {
    body[links[p].feature.id]
  }

  /**
   * `order` visits every original once: first those in the body, in the
   * order of the body's history, then the others in their own order.
   */
  ghost predicate IsHistoryOrder(links: seq<Link>, body: map<nat, nat>, order: seq<nat>)
  {
    multiset(order) == multiset(TransformedShapes.Positions(|links|))
    && (forall a, b :: 0 <= a < b < |order| && Found(links, body, order[b]) ==> Found(links, body, order[a]))
    && (forall a, b :: 0 <= a < b < |order| && Found(links, body, order[a]) && Found(links, body, order[b]) ==>
          BodyIndex(links, body, order[a]) <= BodyIndex(links, body, order[b]))
    && (forall a, b :: 0 <= a < b < |order| && !Found(links, body, order[a]) && !Found(links, body, order[b]) ==>
          order[a] < order[b])
  }

  /** The key the corrected sort orders positions by: the body index of a found original. */
  function HistoryKey(links: seq<Link>, body: map<nat, nat>, p: nat): real
  {
    if Found(links, body, p) then BodyIndex(links, body, p) as real else 0.0
  }

  /**
   * The corrected ordering: the positions of the originals found in the body
   * are sorted by body index, and the others follow in order.
   */
  method HistoryOrder(links: seq<Link>, body: map<nat, nat>) returns (order: seq<nat>)
    ensures IsHistoryOrder(links, body, order)
  {
    var found, rest := SplitFound(links, body);
    var a := new nat[|found|](j requires 0 <= j < |found| => found[j]);
    assert a[..] == found;
    Sorting.SortByKey(a, (p: nat) => HistoryKey(links, body, p));
    order := a[..] + rest;
    HistoryOrderHolds(links, body, a[..], found, rest, order);
  }

  /**
   * The loop building `originalIndices`, corrected to keep each found
   * original's own position; the others are listed in `rest`.
   */
  method SplitFound(links: seq<Link>, body: map<nat, nat>) returns (found: seq<nat>, rest: seq<nat>)
    ensures multiset(found) + multiset(rest) == multiset(TransformedShapes.Positions(|links|))
    ensures forall p :: p in found ==> Found(links, body, p)
    ensures forall j :: 0 <= j < |rest| ==> !Found(links, body, rest[j])
    ensures forall a, b :: 0 <= a < b < |rest| ==> rest[a] < rest[b]
  {
    found := [];
    rest := [];
    for i := 0 to |links|
      invariant multiset(found) + multiset(rest) == multiset(TransformedShapes.Positions(i))
      invariant forall p :: p in found ==> Found(links, body, p)
      invariant forall j :: 0 <= j < |rest| ==> rest[j] < i && !Found(links, body, rest[j])
      invariant forall a, b :: 0 <= a < b < |rest| ==> rest[a] < rest[b]
    {
      assert TransformedShapes.Positions(i + 1) == TransformedShapes.Positions(i) + [i];
      if links[i].feature.id in body {
        found := found + [i];
      } else {
        rest := rest + [i];
      }
    }
  }

  lemma {:induction false} HistoryOrderHolds(links: seq<Link>, body: map<nat, nat>, sorted: seq<nat>, found: seq<nat>,
                          rest: seq<nat>, order: seq<nat>)
    requires Sorting.SortedBy(sorted, (p: nat) => HistoryKey(links, body, p))
    requires multiset(sorted) == multiset(found)
    requires multiset(found) + multiset(rest) == multiset(TransformedShapes.Positions(|links|))
    requires forall p :: p in found ==> Found(links, body, p)
    requires forall j :: 0 <= j < |rest| ==> !Found(links, body, rest[j])
    requires forall a, b :: 0 <= a < b < |rest| ==> rest[a] < rest[b]
    requires order == sorted + rest
    ensures IsHistoryOrder(links, body, order)
  {
    forall x | 0 <= x < |sorted| ensures Found(links, body, order[x]) {
      assert sorted[x] in multiset(found);
    }
    forall x | |sorted| <= x < |order| ensures !Found(links, body, order[x]) {
      assert order[x] == rest[x - |sorted|];
    }
  }

  /** The pairs as written: the second component counts only the originals found so far. */
  function PairsAsWritten(links: seq<Link>, body: map<nat, nat>): seq<(nat, nat)>
  {
    if |links| == 0 then []
    else
      var ps := PairsAsWritten(links[..|links| - 1], body);
      var l := links[|links| - 1];
      if l.feature.id in body then ps + [(body[l.feature.id], |ps|)] else ps
  }

  /** The visit as written: visit `i` takes the original named by the `i`-th sorted pair, else the `i`-th original. */
  function VisitAsWritten(n: nat, sorted: seq<(nat, nat)>): (r: seq<nat>)
    ensures |r| == n
  {
    seq(n, i requires 0 <= i < n => if i < |sorted| then sorted[i].1 else i)
  }

  /** A plain PartDesign feature with the given id. */
  function PlainFeature(id: nat): Feature
  {
    Feature(id, "", DesignFeature, false, false, [], [], map[])
  }

  /**
   * With a first original outside the body and two in it, at body positions
   * 5 and 3, the visit as written goes through the originals 1, 0, 2: the
   * original at body position 5 comes before the one at body position 3.
   */
  lemma {:induction false} VisitAsWrittenMisorders(sorted: seq<(nat, nat)>)
    requires Sorting.SortedBy(sorted, (q: (nat, nat)) => q.0 as real)
    requires multiset(sorted) ==
      multiset(PairsAsWritten([Link(PlainFeature(0), [""]), Link(PlainFeature(1), [""]), Link(PlainFeature(2), [""])],
                              map[1 := 5, 2 := 3]))
    ensures VisitAsWritten(3, sorted) == [1, 0, 2]
    ensures !IsHistoryOrder([Link(PlainFeature(0), [""]), Link(PlainFeature(1), [""]), Link(PlainFeature(2), [""])],
                            map[1 := 5, 2 := 3], VisitAsWritten(3, sorted))
  {
    var links := [Link(PlainFeature(0), [""]), Link(PlainFeature(1), [""]), Link(PlainFeature(2), [""])];
    var body := map[1 := 5, 2 := 3];
    assert links[..2][..1] == [links[0]];
    assert links[..2][..1][..0] == [];
    assert PairsAsWritten(links[..2][..1], body) == [];
    assert PairsAsWritten(links[..2], body) == [(5, 0)];
    assert PairsAsWritten(links, body) == [(5, 0), (3, 1)];
    assert |sorted| == 2 by {
      assert |multiset(sorted)| == |multiset([(5, 0), (3, 1)])|;
    }
    assert sorted[0] in multiset([(5, 0), (3, 1)]) && sorted[1] in multiset([(5, 0), (3, 1)]);
    assert sorted[0] != sorted[1];
    assert (sorted[0].0 as real) <= (sorted[1].0 as real);
    assert sorted == [(3, 1), (5, 0)];
    var v := VisitAsWritten(3, sorted);
    assert v == [1, 0, 2];
    assert Found(links, body, v[0]) && Found(links, body, v[2]);
    assert BodyIndex(links, body, v[0]) > BodyIndex(links, body, v[2]);
  }

  // ---------------------------------------------------------------------
  // Preparing the originals

  /** The body lookup used for the ordering: only with a body and more than one original. */
  function OrderingBody(body: Option<map<nat, nat>>, n: nat): map<nat, nat>
  {
    if body.Some? && n > 1 then body.value else map[]
  }

  /** The entries in the given order. */
  function Permuted(links: seq<Link>, order: seq<nat>): (r: seq<Link>)
    requires forall i :: 0 <= i < |order| ==> order[i] < |links|
    ensures |r| == |order|
  {
    seq(|order|, i requires 0 <= i < |order| => links[order[i]])
  }

  /**
   * The first half of `execute`: keeps the PartDesign originals; with none
   * left, falls back to the base feature with the whole shape, or gives
   * `None` when there is no base feature either (the shapes are then
   * cleared); with several in a body, orders them by the body's history.
   */
  method PrepareOriginals(links: seq<Link>, baseFeature: Option<Feature>, body: Option<map<nat, nat>>)
    returns (r: Option<seq<Link>>)
    ensures var kept := DesignOnly(links);
      && (r.None? <==> |kept| == 0 && baseFeature.None?)
      && (|kept| == 0 && baseFeature.Some? ==> r == Some([Link(baseFeature.value, [""])]))
      && (|kept| > 0 ==> r.Some? && exists order ::
            IsHistoryOrder(kept, OrderingBody(body, |kept|), order) &&
            (forall i :: 0 <= i < |order| ==> order[i] < |kept|) &&
            r.value == Permuted(kept, order))
  {
    var kept := KeepDesignFeatures(links);
    if |kept| == 0 {
      if baseFeature.None? {
        return None;
      }
      return Some([Link(baseFeature.value, [""])]);
    }
    var order := HistoryOrder(kept, OrderingBody(body, |kept|));
    forall i | 0 <= i < |order| ensures order[i] < |kept| {
      assert order[i] in multiset(TransformedShapes.Positions(|kept|));
      TransformedShapes.PositionsOnce(|kept|, order[i]);
    }
    r := Some(Permuted(kept, order));
  }

  /** Without a body, or with a single original, the history order is the list order. */
  lemma {:induction false} NoBodyKeepsOrder(links: seq<Link>, order: seq<nat>)
    requires IsHistoryOrder(links, map[], order)
    ensures order == TransformedShapes.Positions(|links|)
  {
    var n := |links|;
    assert |order| == n by {
      assert |multiset(order)| == |multiset(TransformedShapes.Positions(n))|;
    }
    forall i | 0 <= i < n ensures order[i] == i {
      OrderValue(order, n, i);
    }
  }

  /** In a strictly increasing permutation of `0 .. n - 1`, entry `i` is `i`. */
  lemma {:induction false} OrderValue(order: seq<nat>, n: nat, i: nat)
    requires |order| == n && i < n
    requires multiset(order) == multiset(TransformedShapes.Positions(n))
    requires forall a, b :: 0 <= a < b < n ==> order[a] < order[b]
    ensures order[i] == i
  {
    forall j | 0 <= j < n ensures order[j] < n {
      assert order[j] in multiset(TransformedShapes.Positions(n));
      TransformedShapes.PositionsOnce(n, order[j]);
    }
    IncreasingBounds(order, n, i);
  }

  lemma {:induction false} IncreasingBounds(order: seq<nat>, n: nat, i: nat)
    requires |order| == n && i < n
    requires forall j :: 0 <= j < n ==> order[j] < n
    requires forall a, b :: 0 <= a < b < n ==> order[a] < order[b]
    ensures order[i] == i
  {
    LowerBound(order, n, i);
    LowerBound(order, n, n - 1);
    if order[i] > i {
      // the n - 1 - i entries after i all lie strictly between order[i] and n
      UpperRoom(order, n, i);
    }
  }

  lemma {:induction false} LowerBound(order: seq<nat>, n: nat, i: nat)
    requires |order| == n && i < n
    requires forall a, b :: 0 <= a < b < n ==> order[a] < order[b]
    ensures order[i] >= i
  {
    if i > 0 {
      LowerBound(order, n, i - 1);
    }
  }

  lemma {:induction false} UpperRoom(order: seq<nat>, n: nat, i: nat)
    requires |order| == n && i < n
    requires forall j :: 0 <= j < n ==> order[j] < n
    requires forall a, b :: 0 <= a < b < n ==> order[a] < order[b]
    ensures order[i] + (n - 1 - i) <= n - 1
    decreases n - i
  {
    if i < n - 1 {
      UpperRoom(order, n, i + 1);
    }
  }

  // ---------------------------------------------------------------------
  // Collecting the shapes

  const EmptyMsg := "Shape of source feature is empty"
  const NonSolidMsg := "Non solid source feature"

  /** One shape to transform: the shape, the name it came from, fuse or cut, and its start index. */
  datatype Piece = Piece(shape: nat, sub: string, fuse: bool, startIndex: nat)

  /** The two shape sets that drop duplicates, and the shapes collected so far. */
  datatype Collecting = Collecting(addSet: set<nat>, cutSet: set<nat>, pieces: seq<Piece>)

  const Nothing := Collecting({}, {}, [])

  /** Takes shape `s` unless its set already holds it. */
  function Take(st: Collecting, s: nat, name: string, fuse: bool, start: nat): Collecting
  {
    if fuse then
      (if s in st.addSet then st else Collecting(st.addSet + {s}, st.cutSet, st.pieces + [Piece(s, name, true, start)]))
    else
      (if s in st.cutSet then st else Collecting(st.addSet, st.cutSet + {s}, st.pieces + [Piece(s, name, false, start)]))
  }

  /** The loop over the add/sub shapes of an additive or subtractive original; null shapes are skipped. */
  function TakeTools(st: Collecting, name: string, ts: seq<Tool>, start: nat): Collecting
  {
    if |ts| == 0 then st
    else
      var st' := TakeTools(st, name, ts[..|ts| - 1], start);
      var t := ts[|ts| - 1];
      if t.shape.None? then st' else Take(st', t.shape.value, name, t.fuse, start)
  }

  /** The loop over the solids found for one sub-element; each is fused. */
  function TakeSolids(st: Collecting, name: string, ss: seq<nat>, start: nat): Collecting
  {
    if |ss| == 0 then st else Take(TakeSolids(st, name, ss[..|ss| - 1], start), ss[|ss| - 1], name, true, start)
  }

  /** The name a collected solid carries: the feature's, then `.sub` when a sub-element was named. */
  function SubName(f: Feature, sub: string): string
  {
    if |sub| == 0 then f.name else f.name + "." + sub
  }

  /**
   * The solids a sub-element stands for: all solids for the whole shape, the
   * solid containing the sub-element otherwise; a missing sub-element or no
   * solid at all is an error.
   */
  function SubSolids(f: Feature, sub: string): (r: Result<seq<nat>>)
    ensures r.Ok? ==> |r.value| > 0
    ensures r.Err? ==> r.msg == EmptyMsg || r.msg == NonSolidMsg
    ensures r.Err? && r.msg == EmptyMsg <==> |sub| > 0 && (sub !in f.subShapes || f.subShapes[sub].MissingSub?)
  {
    if |sub| == 0 then (if |f.solids| == 0 then Err(NonSolidMsg) else Ok(f.solids))
    else if sub !in f.subShapes || f.subShapes[sub].MissingSub? then Err(EmptyMsg)
    else if f.subShapes[sub].NoSolid? then Err(NonSolidMsg)
    else Ok([f.subShapes[sub].solid])
  }

  function TakeSub(st: Collecting, f: Feature, sub: string, start: nat): Result<Collecting>
  {
    match SubSolids(f, sub)
    case Err(m) => Err(m)
    case Ok(ss) => Ok(TakeSolids(st, SubName(f, sub), ss, start))
  }

  /** The loop over the sub-elements of a plain original; the first failing one ends `execute`. */
  function TakeSubs(st: Collecting, f: Feature, subs: seq<string>, start: nat): Result<Collecting>
  {
    if |subs| == 0 then Ok(st)
    else
      match TakeSubs(st, f, subs[..|subs| - 1], start)
      case Err(m) => Err(m)
      case Ok(st') => TakeSub(st', f, subs[|subs| - 1], start)
  }

  function StartIndex(f: Feature, canSkipFirst: bool): nat
  {
    if canSkipFirst && f.sibling then 1 else 0
  }

  /** An original that contributes its add/sub shapes rather than its solids. */
  predicate UsesTools(l: Link, subTransform: bool)
  {
    subTransform && l.feature.kind == AddSubFeature
  }

  /** One visited original; non-PartDesign objects and suppressed add/sub features add nothing. */
  function Visit(st: Collecting, l: Link, subTransform: bool, canSkipFirst: bool): Result<Collecting>
  {
    var f := l.feature;
    if !IsDesign(f.kind) then Ok(st)
    else if UsesTools(l, subTransform) then
      (if f.suppressed then Ok(st) else Ok(TakeTools(st, f.name, f.tools, StartIndex(f, canSkipFirst))))
    else TakeSubs(st, f, l.subs, StartIndex(f, canSkipFirst))
  }

  /** The whole collection loop over the visits, failing at the first failing sub-element. */
  function Collect(visits: seq<Link>, subTransform: bool, canSkipFirst: bool): Result<Collecting>
  {
    if |visits| == 0 then Ok(Nothing)
    else
      match Collect(visits[..|visits| - 1], subTransform, canSkipFirst)
      case Err(m) => Err(m)
      case Ok(st) => Visit(st, visits[|visits| - 1], subTransform, canSkipFirst)
  }

  /** The shapes of the pieces with the given flag, in order. */
  function ShapesOf(ps: seq<Piece>, fuse: bool): seq<nat>
  {
    if |ps| == 0 then []
    else ShapesOf(ps[..|ps| - 1], fuse) + (if ps[|ps| - 1].fuse == fuse then [ps[|ps| - 1].shape] else [])
  }

  ghost predicate Distinct(xs: seq<nat>)
  {
    forall i, j :: 0 <= i < j < |xs| ==> xs[i] != xs[j]
  }

  /**
   * The sets hold exactly the shapes collected with their flag, and no
   * shape is collected twice as a fuse or twice as a cut.
   */
  ghost predicate Consistent(st: Collecting)
  {
    (forall s :: s in st.addSet <==> s in ShapesOf(st.pieces, true))
    && (forall s :: s in st.cutSet <==> s in ShapesOf(st.pieces, false))
    && Distinct(ShapesOf(st.pieces, true))
    && Distinct(ShapesOf(st.pieces, false))
  }

  lemma {:induction false} TakeConsistent(st: Collecting, s: nat, name: string, fuse: bool, start: nat)
    requires Consistent(st)
    ensures Consistent(Take(st, s, name, fuse, start))
    ensures s in (if fuse then Take(st, s, name, fuse, start).addSet else Take(st, s, name, fuse, start).cutSet)
    ensures st.addSet <= Take(st, s, name, fuse, start).addSet
  {
    var st' := Take(st, s, name, fuse, start);
    if st' != st {
      var p := st.pieces + [Piece(s, name, fuse, start)];
      assert p[..|p| - 1] == st.pieces;
      assert ShapesOf(p, fuse) == ShapesOf(st.pieces, fuse) + [s];
      assert ShapesOf(p, !fuse) == ShapesOf(st.pieces, !fuse);
    }
  }

  lemma {:induction false} TakeToolsConsistent(st: Collecting, name: string, ts: seq<Tool>, start: nat)
    requires Consistent(st)
    ensures Consistent(TakeTools(st, name, ts, start))
    ensures st.addSet <= TakeTools(st, name, ts, start).addSet
  {
    if |ts| > 0 {
      TakeToolsConsistent(st, name, ts[..|ts| - 1], start);
      var st' := TakeTools(st, name, ts[..|ts| - 1], start);
      var t := ts[|ts| - 1];
      if t.shape.Some? {
        TakeConsistent(st', t.shape.value, name, t.fuse, start);
      }
    }
  }

  /** Taking solids keeps the state consistent, and every solid taken is in the fuse set afterwards. */
  lemma {:induction false} TakeSolidsConsistent(st: Collecting, name: string, ss: seq<nat>, start: nat)
    requires Consistent(st)
    ensures Consistent(TakeSolids(st, name, ss, start))
    ensures st.addSet <= TakeSolids(st, name, ss, start).addSet
    ensures forall s :: s in ss ==> s in TakeSolids(st, name, ss, start).addSet
  {
    if |ss| > 0 {
      var init, x := ss[..|ss| - 1], ss[|ss| - 1];
      var mid := TakeSolids(st, name, init, start);
      TakeSolidsConsistent(st, name, init, start);
      TakeConsistent(mid, x, name, true, start);
      var st' := TakeSolids(st, name, ss, start);
      assert st' == Take(mid, x, name, true, start);
      forall s | s in ss ensures s in st'.addSet {
        if s != x {
          var j :| 0 <= j < |ss| && ss[j] == s;
          assert init[j] == s;
        }
      }
    }
  }

  /** The sub-element loop, when it succeeds, keeps the state consistent and fuses the solids of every sub-element. */
  lemma {:induction false} TakeSubsConsistent(st: Collecting, f: Feature, subs: seq<string>, start: nat)
    requires Consistent(st)
    ensures TakeSubs(st, f, subs, start).Ok? ==>
      var st' := TakeSubs(st, f, subs, start).value;
      Consistent(st') && st.addSet <= st'.addSet &&
      forall k :: 0 <= k < |subs| ==> SubSolids(f, subs[k]).Ok? && forall s :: s in SubSolids(f, subs[k]).value ==> s in st'.addSet
  {
    if |subs| > 0 && TakeSubs(st, f, subs, start).Ok? {
      var init := subs[..|subs| - 1];
      TakeSubsConsistent(st, f, init, start);
      var mid := TakeSubs(st, f, init, start).value;
      var last := subs[|subs| - 1];
      TakeSolidsConsistent(mid, SubName(f, last), SubSolids(f, last).value, start);
      var st' := TakeSubs(st, f, subs, start).value;
      forall k | 0 <= k < |subs|
        ensures SubSolids(f, subs[k]).Ok? && forall s :: s in SubSolids(f, subs[k]).value ==> s in st'.addSet
      {
        if k < |subs| - 1 {
          assert subs[k] == init[k];
        }
      }
    }
  }

  /** The sub-element loop fails exactly when one of the sub-elements has no solids to give. */
  lemma {:induction false} TakeSubsFails(st: Collecting, f: Feature, subs: seq<string>, start: nat)
    ensures TakeSubs(st, f, subs, start).Err? <==> exists k :: 0 <= k < |subs| && SubSolids(f, subs[k]).Err?
  {
    if |subs| > 0 {
      var init := subs[..|subs| - 1];
      TakeSubsFails(st, f, init, start);
      if exists k :: 0 <= k < |init| && SubSolids(f, init[k]).Err? {
        var k :| 0 <= k < |init| && SubSolids(f, init[k]).Err?;
        assert subs[k] == init[k];
      }
      if exists k :: 0 <= k < |subs| && SubSolids(f, subs[k]).Err? {
        var k :| 0 <= k < |subs| && SubSolids(f, subs[k]).Err?;
        if k < |subs| - 1 {
          assert init[k] == subs[k];
        }
      }
    }
  }

  /** An original that fails: a plain PartDesign original with a sub-element that gives no solids. */
  predicate FailingVisit(l: Link, subTransform: bool)
  {
    IsDesign(l.feature.kind) && !UsesTools(l, subTransform)
    && exists k :: 0 <= k < |l.subs| && SubSolids(l.feature, l.subs[k]).Err?
  }

  /** `execute` stops with an error exactly when some visited original fails, whatever the order before it. */
  lemma {:induction false} CollectFails(visits: seq<Link>, subTransform: bool, canSkipFirst: bool)
    ensures Collect(visits, subTransform, canSkipFirst).Err? <==> exists i :: 0 <= i < |visits| && FailingVisit(visits[i], subTransform)
  {
    if |visits| > 0 {
      var init := visits[..|visits| - 1];
      var last := visits[|visits| - 1];
      CollectFails(init, subTransform, canSkipFirst);
      var r := Collect(init, subTransform, canSkipFirst);
      if r.Ok? && IsDesign(last.feature.kind) && !UsesTools(last, subTransform) {
        TakeSubsFails(r.value, last.feature, last.subs, StartIndex(last.feature, canSkipFirst));
      }
      if exists i :: 0 <= i < |init| && FailingVisit(init[i], subTransform) {
        var i :| 0 <= i < |init| && FailingVisit(init[i], subTransform);
        assert visits[i] == init[i];
      }
      if exists i :: 0 <= i < |visits| && FailingVisit(visits[i], subTransform) {
        var i :| 0 <= i < |visits| && FailingVisit(visits[i], subTransform);
        if i < |visits| - 1 {
          assert init[i] == visits[i];
        }
      }
    }
  }

  /**
   * A successful collection is consistent: no shape is transformed twice as
   * a fuse or twice as a cut, and every solid of every plain original visited
   * is among the fused shapes.
   */
  lemma {:induction false} CollectConsistent(visits: seq<Link>, subTransform: bool, canSkipFirst: bool)
    ensures Collect(visits, subTransform, canSkipFirst).Ok? ==>
      var st := Collect(visits, subTransform, canSkipFirst).value;
      Consistent(st) &&
      forall i, k :: 0 <= i < |visits| && IsDesign(visits[i].feature.kind) && !UsesTools(visits[i], subTransform)
                     && 0 <= k < |visits[i].subs| ==>
        SubSolids(visits[i].feature, visits[i].subs[k]).Ok? &&
        forall s :: s in SubSolids(visits[i].feature, visits[i].subs[k]).value ==> s in st.addSet
  {
    if |visits| == 0 {
      assert ShapesOf([], true) == [] && ShapesOf([], false) == [];
    } else if Collect(visits, subTransform, canSkipFirst).Ok? {
      var init := visits[..|visits| - 1];
      var last := visits[|visits| - 1];
      CollectConsistent(init, subTransform, canSkipFirst);
      var mid := Collect(init, subTransform, canSkipFirst).value;
      VisitConsistent(mid, last, subTransform, canSkipFirst);
      var st := Collect(visits, subTransform, canSkipFirst).value;
      forall i, k | 0 <= i < |visits| && IsDesign(visits[i].feature.kind) && !UsesTools(visits[i], subTransform)
                    && 0 <= k < |visits[i].subs|
        ensures SubSolids(visits[i].feature, visits[i].subs[k]).Ok? &&
                forall s :: s in SubSolids(visits[i].feature, visits[i].subs[k]).value ==> s in st.addSet
      {
        if i < |visits| - 1 {
          assert visits[i] == init[i];
        }
      }
    }
  }

  lemma {:induction false} VisitConsistent(st: Collecting, l: Link, subTransform: bool, canSkipFirst: bool)
    requires Consistent(st)
    ensures Visit(st, l, subTransform, canSkipFirst).Ok? ==>
      var st' := Visit(st, l, subTransform, canSkipFirst).value;
      Consistent(st') && st.addSet <= st'.addSet &&
      (IsDesign(l.feature.kind) && !UsesTools(l, subTransform) ==>
        forall k :: 0 <= k < |l.subs| ==> (SubSolids(l.feature, l.subs[k]).Ok? &&
          forall s :: s in SubSolids(l.feature, l.subs[k]).value ==> s in st'.addSet))
  {
    var f := l.feature;
    var start := StartIndex(f, canSkipFirst);
    if IsDesign(f.kind) {
      if UsesTools(l, subTransform) {
        TakeToolsConsistent(st, f.name, f.tools, start);
      } else {
        TakeSubsConsistent(st, f, l.subs, start);
      }
    }
  }

  // ---------------------------------------------------------------------
  // The collection loops

  method TakeShape(st: Collecting, s: nat, name: string, fuse: bool, start: nat) returns (r: Collecting)
    ensures r == Take(st, s, name, fuse, start)
  {
    r := st;
    if fuse {
      if s !in r.addSet {
        r := Collecting(r.addSet + {s}, r.cutSet, r.pieces + [Piece(s, name, true, start)]);
      }
    } else {
      if s !in r.cutSet {
        r := Collecting(r.addSet, r.cutSet + {s}, r.pieces + [Piece(s, name, false, start)]);
      }
    }
  }

  /** The loop over the visiting order. */
  method CollectShapes(visits: seq<Link>, subTransform: bool, canSkipFirst: bool) returns (r: Result<Collecting>)
    ensures r == Collect(visits, subTransform, canSkipFirst)
  {
    var st := Nothing;
    for i := 0 to |visits|
      invariant Collect(visits[..i], subTransform, canSkipFirst) == Ok(st)
    {
      var v := VisitOriginal(st, visits[i], subTransform, canSkipFirst);
      VisitNext(visits, i, subTransform, canSkipFirst, st);
      if v.Err? {
        r := v;
        CollectStaysFailed(visits, subTransform, canSkipFirst, i + 1);
        return;
      }
      st := v.value;
    }
    assert visits[..|visits|] == visits;
    r := Ok(st);
  }

  lemma {:induction false} VisitNext(visits: seq<Link>, i: nat, subTransform: bool, canSkipFirst: bool, st: Collecting)
    requires i < |visits|
    requires Collect(visits[..i], subTransform, canSkipFirst) == Ok(st)
    ensures Collect(visits[..i + 1], subTransform, canSkipFirst) == Visit(st, visits[i], subTransform, canSkipFirst)
  {
    assert visits[..i + 1][..i] == visits[..i];
  }

  /** The body of the loop over the originals, for one visited original. */
  method VisitOriginal(st0: Collecting, l: Link, subTransform: bool, canSkipFirst: bool) returns (r: Result<Collecting>)
    ensures r == Visit(st0, l, subTransform, canSkipFirst)
  {
    var f := l.feature;
    if !IsDesign(f.kind) {
      return Ok(st0);
    }
    var start := StartIndex(f, canSkipFirst);
    if UsesTools(l, subTransform) {
      if f.suppressed {
        return Ok(st0);
      }
      var st := CollectTools(st0, f, start);
      return Ok(st);
    }
    r := CollectSubs(st0, f, l.subs, start);
  }

  /** The loop over the add/sub shapes of an additive or subtractive original. */
  method CollectTools(st0: Collecting, f: Feature, start: nat) returns (st: Collecting)
    ensures st == TakeTools(st0, f.name, f.tools, start)
  {
    st := st0;
    for j := 0 to |f.tools|
      invariant st == TakeTools(st0, f.name, f.tools[..j], start)
    {
      assert f.tools[..j + 1][..j] == f.tools[..j];
      var t := f.tools[j];
      if t.shape.None? {
        continue;
      }
      st := TakeShape(st, t.shape.value, f.name, t.fuse, start);
    }
    assert f.tools[..|f.tools|] == f.tools;
  }

  /** The loop over the sub-elements of an original, stopping at the first that has no solids. */
  method CollectSubs(st0: Collecting, f: Feature, subs: seq<string>, start: nat) returns (r: Result<Collecting>)
    ensures r == TakeSubs(st0, f, subs, start)
  {
    var st := st0;
    for k := 0 to |subs|
      invariant TakeSubs(st0, f, subs[..k], start) == Ok(st)
    {
      assert subs[..k + 1][..k] == subs[..k];
      var sub := subs[k];
      var solids := SubSolids(f, sub);
      if solids.Err? {
        SubsStayFailed(st0, f, subs, start, k + 1);
        return Err(solids.msg);
      }
      st := CollectSolids(st, SubName(f, sub), solids.value, start);
    }
    assert subs[..|subs|] == subs;
    return Ok(st);
  }

  /** The loop over the solids found for one sub-element. */
  method CollectSolids(st0: Collecting, name: string, ss: seq<nat>, start: nat) returns (st: Collecting)
    ensures st == TakeSolids(st0, name, ss, start)
  {
    st := st0;
    for m := 0 to |ss|
      invariant st == TakeSolids(st0, name, ss[..m], start)
    {
      assert ss[..m + 1][..m] == ss[..m];
      st := TakeShape(st, ss[m], name, true, start);
    }
    assert ss[..|ss|] == ss;
  }

  lemma {:induction false} SubsStayFailed(st: Collecting, f: Feature, subs: seq<string>, start: nat, k: nat)
    requires 0 < k <= |subs|
    requires TakeSubs(st, f, subs[..k], start).Err?
    ensures TakeSubs(st, f, subs, start) == TakeSubs(st, f, subs[..k], start)
    decreases |subs| - k
  {
    if k < |subs| {
      assert subs[..k + 1][..k] == subs[..k];
      SubsStayFailed(st, f, subs, start, k + 1);
    } else {
      assert subs[..k] == subs;
    }
  }

  lemma {:induction false} CollectStaysFailed(visits: seq<Link>, subTransform: bool, canSkipFirst: bool, i: nat)
    requires 0 < i <= |visits|
    requires Collect(visits[..i], subTransform, canSkipFirst).Err?
    ensures Collect(visits, subTransform, canSkipFirst) == Collect(visits[..i], subTransform, canSkipFirst)
    decreases |visits| - i
  {
    if i < |visits| {
      assert visits[..i + 1][..i] == visits[..i];
      CollectStaysFailed(visits, subTransform, canSkipFirst, i + 1);
    } else {
      assert visits[..i] == visits;
    }
  }
}
