/**
 * The shape bookkeeping of a PartDesign transformation feature: the list of
 * additive and subtractive results is compacted into runs and encoded into
 * the `AddSubShape` property, and tools are divided into overlapping groups.
 *
 * Shapes are opaque tokens; only whether a shape is a compound, and the
 * children of the compounds made here, are visible.
 */
module TransformedShapes {
  datatype TShape = Null | Solid(id: nat) | Compound(children: seq<TShape>)

  /** One entry of the add/sub list: a shape and whether it is fused (true) or cut (false). */
  datatype AddSub = AddSub(shape: TShape, fuse: bool)

  // ---------------------------------------------------------------------
  // Run compaction

  /** The number of leading entries of `xs` whose flag is `fuse`. */
  function RunLen(xs: seq<AddSub>, fuse: bool): (n: nat)
    ensures n <= |xs|
  {
    if |xs| == 0 || xs[0].fuse != fuse then 0 else 1 + RunLen(xs[1..], fuse)
  }

  function Shapes(xs: seq<AddSub>): (r: seq<TShape>)
    ensures |r| == |xs| && forall i :: 0 <= i < |xs| ==> r[i] == xs[i].shape
  {
    seq(|xs|, i requires 0 <= i < |xs| => xs[i].shape)
  }

  /** A run of one entry stays as it is; a longer run becomes the compound of its shapes. */
  function Merge(run: seq<AddSub>): AddSub
    requires |run| > 0
  {
    if |run| == 1 then run[0] else AddSub(Compound(Shapes(run)), run[0].fuse)
  }

  /** The maximal runs of entries with the same flag. */
  function Runs(xs: seq<AddSub>): seq<seq<AddSub>>
    decreases |xs|
  {
    if |xs| == 0 then [] else var n := 1 + RunLen(xs[1..], xs[0].fuse); [xs[..n]] + Runs(xs[n..])
  }

  /** The add/sub list after compaction. */
  function Compact(xs: seq<AddSub>): seq<AddSub>
    decreases |xs|
  {
    if |xs| == 0 then [] else var n := 1 + RunLen(xs[1..], xs[0].fuse); [Merge(xs[..n])] + Compact(xs[n..])
  }

  function Flatten(rs: seq<seq<AddSub>>): seq<AddSub>
  {
    if |rs| == 0 then [] else rs[0] + Flatten(rs[1..])
  }

  /** A run: non-empty, all entries with the flag of the first. */
  predicate IsRun(run: seq<AddSub>)
  {
    |run| > 0 && forall j :: 0 <= j < |run| ==> run[j].fuse == run[0].fuse
  }

  lemma {:induction false} RunLenSpec(xs: seq<AddSub>, fuse: bool)
    ensures forall j :: 0 <= j < RunLen(xs, fuse) ==> xs[j].fuse == fuse
    ensures RunLen(xs, fuse) < |xs| ==> xs[RunLen(xs, fuse)].fuse != fuse
  {
    if |xs| > 0 && xs[0].fuse == fuse {
      RunLenSpec(xs[1..], fuse);
    }
  }

  /** A prefix of entries with flag `fuse`, followed by the end or another flag, is the whole leading run. */
  lemma {:induction false} RunLenExact(xs: seq<AddSub>, fuse: bool, k: nat)
    requires k <= |xs|
    requires forall j :: 0 <= j < k ==> xs[j].fuse == fuse
    requires k == |xs| || xs[k].fuse != fuse
    ensures RunLen(xs, fuse) == k
  {
    if k > 0 {
      RunLenExact(xs[1..], fuse, k - 1);
    }
  }

  /**
   * The runs cut the list into maximal pieces: they concatenate back to the
   * list, each is a run, and neighbouring runs have different flags.
   */
  lemma {:induction false} RunsSpec(xs: seq<AddSub>)
    ensures Flatten(Runs(xs)) == xs
    ensures forall j :: 0 <= j < |Runs(xs)| ==> IsRun(Runs(xs)[j])
    ensures forall j :: 0 <= j < |Runs(xs)| ==> |Runs(xs)[j]| > 0
    ensures forall j :: 0 < j < |Runs(xs)| ==> Runs(xs)[j - 1][0].fuse != Runs(xs)[j][0].fuse
    ensures |xs| > 0 ==> |Runs(xs)| > 0 && Runs(xs)[0][0] == xs[0]
    decreases |xs|
  {
    if |xs| > 0 {
      var n := 1 + RunLen(xs[1..], xs[0].fuse);
      RunLenSpec(xs[1..], xs[0].fuse);
      RunsSpec(xs[n..]);
      assert xs[..n] + xs[n..] == xs;
      var rs := Runs(xs);
      assert rs[1..] == Runs(xs[n..]);
      forall j | 0 <= j < |xs[..n]| ensures xs[..n][j].fuse == xs[0].fuse {
        if j > 0 { assert xs[..n][j] == xs[1..][j - 1]; }
      }
      if n < |xs| {
        assert xs[n].fuse != xs[0].fuse by { assert xs[n] == xs[1..][n - 1]; }
      }
    }
  }

  /** Compaction leaves one entry per maximal run: the run itself when alone, else the compound of its shapes. */
  lemma {:induction false} CompactSpec(xs: seq<AddSub>)
    ensures |Compact(xs)| == |Runs(xs)|
    ensures forall j :: 0 <= j < |Runs(xs)| ==> |Runs(xs)[j]| > 0 && Compact(xs)[j] == Merge(Runs(xs)[j])
    decreases |xs|
  {
    if |xs| > 0 {
      var n := 1 + RunLen(xs[1..], xs[0].fuse);
      CompactSpec(xs[n..]);
    }
  }

  /** After compaction no two neighbouring entries share a flag. */
  lemma {:induction false} CompactAlternates(xs: seq<AddSub>)
    ensures forall j :: 0 < j < |Compact(xs)| ==> Compact(xs)[j - 1].fuse != Compact(xs)[j].fuse
  {
    CompactSpec(xs);
    RunsSpec(xs);
  }

  /** The loop that merges each run into its first entry, erasing the rest. */
  method CompactAddSub(addsub: seq<AddSub>) returns (r: seq<AddSub>)
    ensures r == Compact(addsub)
  {
    r := addsub;
    var i := 0;
    while i < |r|
      invariant 0 <= i <= |r|
      invariant r[..i] + Compact(r[i..]) == Compact(addsub)
      decreases |r| - i
    {
      ghost var orig := r;
      ghost var k;
      r, k := MergeRun(r, i);
      CompactStep(orig, i, k, orig[i].fuse);
      calc {
        r[..i + 1] + Compact(r[i + 1..]);
        { assert r[..i + 1] == orig[..i] + [r[i]]; }
        orig[..i] + [r[i]] + Compact(orig[i + 1 + k..]);
        orig[..i] + ([r[i]] + Compact(orig[i + 1 + k..]));
        orig[..i] + Compact(orig[i..]);
      }
      i := i + 1;
    }
  }

  /**
   * The inner loop of the compaction: erases the entries after `i` that share
   * its flag and, when there were any, replaces entry `i` by the compound of
   * the run. `k` is the number of entries erased.
   */
  method MergeRun(r0: seq<AddSub>, i: nat) returns (r: seq<AddSub>, ghost k: nat)
    requires i < |r0|
    ensures i + 1 + k <= |r0| && |r| == |r0| - k
    ensures forall j :: i + 1 <= j < i + 1 + k ==> r0[j].fuse == r0[i].fuse
    ensures i + 1 + k == |r0| || r0[i + 1 + k].fuse != r0[i].fuse
    ensures r[..i] == r0[..i] && r[i] == Merge(r0[i..i + 1 + k]) && r[i + 1..] == r0[i + 1 + k..]
  {
    r := r0;
    var fuse := r[i].fuse;
    k := 0;
    var tmp: seq<TShape> := [];
    while i + 1 < |r| && r[i + 1].fuse == fuse
      invariant i + 1 + k <= |r0| && |r| == |r0| - k
      invariant r[..i + 1] == r0[..i + 1] && r[i + 1..] == r0[i + 1 + k..]
      invariant forall j :: i + 1 <= j < i + 1 + k ==> r0[j].fuse == fuse
      invariant tmp == if k == 0 then [] else Shapes(r0[i..i + 1 + k])
      decreases |r|
    {
      assert r[i + 1] == r0[i + 1 + k] by { assert r[i + 1..][0] == r[i + 1]; }
      if |tmp| == 0 {
        tmp := tmp + [r[i].shape];
      }
      tmp := tmp + [r[i + 1].shape];
      assert r0[i..i + 1 + (k + 1)] == r0[i..i + 1 + k] + [r0[i + 1 + k]];
      r := r[..i + 1] + r[i + 2..];
      k := k + 1;
    }
    if i + 1 < |r| {
      assert r[i + 1] == r0[i + 1 + k] by { assert r[i + 1..][0] == r[i + 1]; }
    }
    if |tmp| > 0 {
      r := r[i := AddSub(Compound(tmp), r[i].fuse)];
    }
    assert r0[i..i + 1 + k][0] == r0[i];
  }

  /** One outer step of the compaction loop: the run at `i` has `k + 1` entries. */
  lemma {:induction false} CompactStep(orig: seq<AddSub>, i: nat, k: nat, fuse: bool)
    requires i + 1 + k <= |orig| && orig[i].fuse == fuse
    requires forall j :: i + 1 <= j < i + 1 + k ==> orig[j].fuse == fuse
    requires i + 1 + k == |orig| || orig[i + 1 + k].fuse != fuse
    ensures Compact(orig[i..]) == [Merge(orig[i..i + 1 + k])] + Compact(orig[i + 1 + k..])
  {
    var xs := orig[i..];
    assert xs[1..] == orig[i + 1..];
    if i + 1 + k < |orig| {
      assert orig[i + 1..][k] == orig[i + 1 + k];
    }
    forall j | 0 <= j < k ensures xs[1..][j].fuse == fuse {
      assert xs[1..][j] == orig[i + 1 + j];
    }
    RunLenExact(xs[1..], fuse, k);
    assert xs[..1 + k] == orig[i..i + 1 + k];
    assert xs[1 + k..] == orig[i + 1 + k..];
  }

  // ---------------------------------------------------------------------
  // The AddSubShape layout

  /** The empty compound that marks a cut entry. */
  const Marker := Compound([])

  /** An entry of the general layout: a one-child compound for a fuse, marker then shape for a cut. */
  function Wrap(e: AddSub): TShape
  {
    if e.fuse then Compound([e.shape]) else Compound([Marker, e.shape])
  }

  /** The value of `AddSubShape` for a compacted add/sub list. */
  function Layout(addsub: seq<AddSub>): TShape
  {
    if |addsub| == 0 then Null
    else if |addsub| == 1 && !addsub[0].shape.Compound? then
      (if addsub[0].fuse then addsub[0].shape else Compound([Marker, addsub[0].shape]))
    else if |addsub| == 2 && addsub[0].fuse && !addsub[1].fuse
            && !addsub[0].shape.Compound? && !addsub[1].shape.Compound? then
      Compound([addsub[0].shape, addsub[1].shape])
    else Compound(seq(|addsub|, i requires 0 <= i < |addsub| => Wrap(addsub[i])))
  }

  /** Reads one entry of the general layout back. */
  function Unwrap(t: TShape): AddSub
  {
    if t.Compound? && |t.children| == 2 && t.children[0] == Marker then AddSub(t.children[1], false)
    else if t.Compound? && |t.children| == 1 then AddSub(t.children[0], true)
    else AddSub(Null, true)
  }

  /**
   * The general layout keeps every entry recoverable: each child of the
   * compound reads back as its entry, a cut being marked by a leading empty
   * compound.
   */
  lemma {:induction false} LayoutGeneralRoundTrip(addsub: seq<AddSub>)
    requires |addsub| > 0
    requires !(|addsub| == 1 && !addsub[0].shape.Compound?)
    requires !(|addsub| == 2 && addsub[0].fuse && !addsub[1].fuse
               && !addsub[0].shape.Compound? && !addsub[1].shape.Compound?)
    ensures Layout(addsub).Compound? && |Layout(addsub).children| == |addsub|
    ensures forall i :: 0 <= i < |addsub| ==> Unwrap(Layout(addsub).children[i]) == addsub[i]
    ensures forall i :: 0 <= i < |addsub| ==>
      (Layout(addsub).children[i].children[0] == Marker <==> !addsub[i].fuse || addsub[i].shape == Marker)
  {
  }

  /** A lone plain fuse is stored bare, a lone plain cut behind the marker, a plain fuse then cut as a pair. */
  lemma {:induction false} LayoutSpecialCases(addsub: seq<AddSub>)
    ensures |addsub| == 0 ==> Layout(addsub) == Null
    ensures |addsub| == 1 && !addsub[0].shape.Compound? ==>
      Layout(addsub) == if addsub[0].fuse then addsub[0].shape else Compound([Marker, addsub[0].shape])
    ensures |addsub| == 2 && addsub[0].fuse && !addsub[1].fuse && !addsub[0].shape.Compound? && !addsub[1].shape.Compound? ==>
      Layout(addsub) == Compound([addsub[0].shape, addsub[1].shape])
  {
  }

  /** The loop that encodes the compacted list into `AddSubShape`. */
  method EncodeAddSub(addsub: seq<AddSub>) returns (r: TShape)
    ensures r == Layout(addsub)
  {
    if |addsub| == 0 {
      return Null;
    }
    if |addsub| == 1 && !addsub[0].shape.Compound? {
      if addsub[0].fuse {
        return addsub[0].shape;
      }
      return Compound([Marker, addsub[0].shape]);
    }
    if |addsub| == 2 && addsub[0].fuse && !addsub[1].fuse && !addsub[0].shape.Compound? && !addsub[1].shape.Compound? {
      return Compound([addsub[0].shape, addsub[1].shape]);
    }
    var children: seq<TShape> := [];
    for i := 0 to |addsub|
      invariant |children| == i
      invariant forall j :: 0 <= j < i ==> children[j] == Wrap(addsub[j])
    {
      var tmp: seq<TShape> := [];
      if !addsub[i].fuse {
        tmp := tmp + [Marker];
      }
      tmp := tmp + [addsub[i].shape];
      children := children + [Compound(tmp)];
    }
    return Compound(children);
  }

  // ---------------------------------------------------------------------
  // divideTools

  /** The positions `0 .. n - 1` of the input tools. */
  function Positions(n: nat): (r: seq<nat>)
    ensures |r| == n && forall i :: 0 <= i < n ==> r[i] == i
  {
    seq(n, i => i)
  }

  lemma {:induction false} PositionsOnce(n: nat, x: nat)
    ensures multiset(Positions(n))[x] == if x < n then 1 else 0
  {
    if n > 0 {
      PositionsOnce(n - 1, x);
      assert Positions(n) == Positions(n - 1) + [n - 1];
    }
  }

  /** An axis-aligned bounding box with a zero gap, or the void box of an empty shape. */
  datatype Bound = Void | Bound(xmin: real, ymin: real, zmin: real, xmax: real, ymax: real, zmax: real)

  /** The boxes are apart: one is void or they are separated along some axis. */
  predicate IsOut(a: Bound, b: Bound)
  {
    a.Void? || b.Void?
    || a.xmin > b.xmax || a.xmax < b.xmin
    || a.ymin > b.ymax || a.ymax < b.ymin
    || a.zmin > b.zmax || a.zmax < b.zmin
  }

  /** Tools `i` and `j` of `boxes` touch: their boxes are not apart. */
  predicate Touch(boxes: seq<Bound>, i: nat, j: nat)
  {
    i < |boxes| && j < |boxes| && !IsOut(boxes[i], boxes[j])
  }

  /** Touching is symmetric, whatever the boxes. */
  lemma {:induction false} TouchSymmetric(boxes: seq<Bound>, i: nat, j: nat)
    ensures Touch(boxes, i, j) == Touch(boxes, j, i)
  {
  }

  /** Tool `p`'s box touches no other tool's box. */
  ghost predicate Isolated(boxes: seq<Bound>, p: nat)
  {
    forall q :: 0 <= q < |boxes| && q != p ==> !Touch(boxes, p, q)
  }

  /** No tool of `xs` touches a tool of `ys`. */
  ghost predicate Apart(boxes: seq<Bound>, xs: seq<nat>, ys: seq<nat>)
  {
    forall x, y :: x in xs && y in ys ==> !Touch(boxes, x, y)
  }

  /**
   * The group grew along touching tools: each member after the first touches
   * the earlier member `parent[j]`, and differs from it.
   */
  ghost predicate GroupLinked(boxes: seq<Bound>, group: seq<nat>, parent: seq<nat>)
  {
    |parent| == |group| &&
    forall j :: 0 < j < |group| ==>
      parent[j] < j && group[parent[j]] != group[j] && Touch(boxes, group[j], group[parent[j]])
  }

  /** The tools, split over four lists, each exactly once. */
  ghost predicate Partition(a: seq<nat>, b: seq<nat>, c: seq<nat>, d: seq<nat>, n: nat)
  {
    multiset(a) + multiset(b) + multiset(c) + multiset(d) == multiset(Positions(n))
  }

  /** The scan of the group for a member that tool `x` touches. */
  method TouchesGroup(boxes: seq<Bound>, x: nat, group: seq<nat>) returns (found: bool)
    ensures found <==> exists g :: g in group && Touch(boxes, x, g)
  {
    for gi := 0 to |group|
      invariant forall j :: 0 <= j < gi ==> !Touch(boxes, x, group[j])
    {
      if Touch(boxes, x, group[gi]) {
        return true;
      }
    }
    return false;
  }

  /**
   * `divideTools` on the bounding boxes of the tools, tools named by their
   * positions. Tools are grouped by transitive touching; the tool of a
   * one-tool group goes to the compound, the tools of larger groups to the
   * individual list. Every tool lands in exactly one of the two outputs, and
   * in the compound exactly when it touches no other tool.
   */
  method DivideTools(boxes: seq<Bound>) returns (individuals: seq<nat>, compound: seq<nat>)
    ensures multiset(individuals) + multiset(compound) == multiset(Positions(|boxes|))
    ensures forall p :: p in compound <==> 0 <= p < |boxes| && Isolated(boxes, p)
  {
    var n := |boxes|;
    var list := Positions(n);
    individuals := [];
    compound := [];
    while |list| > 0
      invariant Partition(individuals, compound, [], list, n)
      invariant forall p :: p in compound ==> Isolated(boxes, p)
      invariant forall p :: p in individuals ==> !Isolated(boxes, p)
      invariant Apart(boxes, list, individuals + compound)
      decreases |list|
    {
      var group;
      ghost var parent;
      group, list, parent := GrowGroup(boxes, individuals, compound, list);
      Retire(boxes, individuals, compound, group, list, |group| != 1);
      if |group| == 1 {
        GroupDoneSingle(boxes, individuals, compound, group, list);
        compound := compound + group;
      } else {
        GroupDoneMany(boxes, group, parent);
        individuals := individuals + group;
      }
    }
    forall p | p in compound ensures 0 <= p < n {
      PositionsOnce(n, p);
    }
    forall p | 0 <= p < n && Isolated(boxes, p) ensures p in compound {
      PositionsOnce(n, p);
    }
  }

  /**
   * The inner scan of `divideTools`: starting from the first remaining tool,
   * moves into the group every remaining tool that touches a member,
   * restarting the scan after each move, until no remaining tool touches the
   * group. `parent` records, for each member, the earlier member it touched.
   */
  method GrowGroup(boxes: seq<Bound>, ghost individuals: seq<nat>, ghost compound: seq<nat>, list0: seq<nat>)
    returns (group: seq<nat>, list: seq<nat>, ghost parent: seq<nat>)
    requires |list0| > 0
    requires Partition(individuals, compound, [], list0, |boxes|)
    requires Apart(boxes, list0, individuals + compound)
    ensures |group| >= 1 && |list| < |list0|
    ensures Partition(individuals, compound, group, list, |boxes|)
    ensures Apart(boxes, list, group)
    ensures GroupLinked(boxes, group, parent)
    ensures Apart(boxes, list + group, individuals + compound)
  {
    group := [list0[0]];
    parent := [0];
    list := list0[1..];
    assert list0 == group + list;
    var it := 0;
    while it < |list|
      invariant 0 <= it <= |list| < |list0|
      invariant |group| >= 1
      invariant Partition(individuals, compound, group, list, |boxes|)
      invariant Apart(boxes, list[..it], group)
      invariant GroupLinked(boxes, group, parent)
      invariant Apart(boxes, list + group, individuals + compound)
      decreases |list|, |list| - it
    {
      var found := TouchesGroup(boxes, list[it], group);
      if found {
        ghost var j := GroupGrows(boxes, individuals, compound, group, list, it, parent);
        group := group + [list[it]];
        parent := parent + [j];
        list := list[..it] + list[it + 1..];
        it := 0;
      } else {
        assert list[..it + 1] == list[..it] + [list[it]];
        it := it + 1;
      }
    }
    assert list[..it] == list;
  }

  /**
   * Adding a remaining tool that touches member `group[j]` keeps the group
   * linked, and the tools stay a partition.
   */
  lemma {:induction false} GroupGrows(boxes: seq<Bound>, individuals: seq<nat>, compound: seq<nat>, group: seq<nat>,
                   list: seq<nat>, it: nat, parent: seq<nat>) returns (j: nat)
    requires 0 <= it < |list| && |group| >= 1
    requires exists g :: g in group && Touch(boxes, list[it], g)
    requires GroupLinked(boxes, group, parent)
    requires Partition(individuals, compound, group, list, |boxes|)
    requires Apart(boxes, list + group, individuals + compound)
    ensures j < |group|
    ensures GroupLinked(boxes, group + [list[it]], parent + [j])
    ensures Partition(individuals, compound, group + [list[it]], list[..it] + list[it + 1..], |boxes|)
    ensures Apart(boxes, (list[..it] + list[it + 1..]) + (group + [list[it]]), individuals + compound)
  {
    var x := list[it];
    var g :| g in group && Touch(boxes, x, g);
    j :| 0 <= j < |group| && group[j] == g;
    assert list == list[..it] + [x] + list[it + 1..];
    PositionsOnce(|boxes|, x);
    assert x in multiset(list);
    assert g != x by {
      assert g in multiset(group);
    }
    var group' := group + [x];
    assert group'[|group|] == x && group'[j] == g;
  }

  /** A group that stayed at one tool: that tool touches no other. */
  lemma {:induction false} GroupDoneSingle(boxes: seq<Bound>, individuals: seq<nat>, compound: seq<nat>, group: seq<nat>,
                        list: seq<nat>)
    requires |group| == 1
    requires Partition(individuals, compound, group, list, |boxes|)
    requires Apart(boxes, list, group)
    requires Apart(boxes, list + group, individuals + compound)
    ensures Isolated(boxes, group[0])
  {
    var p := group[0];
    assert p in list + group;
    forall q | 0 <= q < |boxes| && q != p ensures !Touch(boxes, p, q) {
      PositionsOnce(|boxes|, q);
      if q in list {
        assert !Touch(boxes, q, p);
      } else {
        assert q in individuals + compound;
      }
    }
  }

  /** A group of two or more: each of its tools touches another tool. */
  lemma {:induction false} GroupDoneMany(boxes: seq<Bound>, group: seq<nat>, parent: seq<nat>)
    requires |group| >= 2
    requires forall p :: p in group ==> p < |boxes|
    requires GroupLinked(boxes, group, parent)
    ensures forall p :: p in group ==> !Isolated(boxes, p)
  {
    forall p | p in group ensures !Isolated(boxes, p) {
      var j :| 0 <= j < |group| && group[j] == p;
      var q := if j == 0 then group[1] else group[parent[j]];
      if j == 0 {
        assert Touch(boxes, group[1], group[parent[1]]) && parent[1] == 0;
      } else {
        assert Touch(boxes, group[j], group[parent[j]]);
      }
      assert q in group && q != p;
      assert Touch(boxes, p, q);
    }
  }

  /** Moving a finished group to one of the outputs keeps the partition and the separation. */
  lemma {:induction false} Retire(boxes: seq<Bound>, individuals: seq<nat>, compound: seq<nat>, group: seq<nat>, list: seq<nat>,
               toIndividuals: bool)
    requires Partition(individuals, compound, group, list, |boxes|)
    requires Apart(boxes, list, group)
    requires Apart(boxes, list + group, individuals + compound)
    ensures forall p :: p in group ==> p < |boxes|
    ensures toIndividuals ==> Partition(individuals + group, compound, [], list, |boxes|)
    ensures toIndividuals ==> Apart(boxes, list, (individuals + group) + compound)
    ensures !toIndividuals ==> Partition(individuals, compound + group, [], list, |boxes|)
    ensures !toIndividuals ==> Apart(boxes, list, individuals + (compound + group))
  {
    forall p | p in group ensures p < |boxes| {
      PositionsOnce(|boxes|, p);
    }
  }
}
