/**
 * The two link properties of a PartDesign transformation feature kept in
 * step: `Originals` (the objects) and `OriginalSubs` (the objects with their
 * sub-element names). When one is changed the other is rewritten from it.
 */
module TransformedLinks {
  /** One entry of `OriginalSubs`: an object and its sub-element names. */
  datatype SubSet = SubSet(obj: nat, subs: seq<string>)

  // ---------------------------------------------------------------------
  // First occurrences

  /** The objects in order of first occurrence, each once. */
  function Dedup(xs: seq<nat>): seq<nat>
  {
    if |xs| == 0 then []
    else
      var d := Dedup(xs[..|xs| - 1]);
      if xs[|xs| - 1] in d then d else d + [xs[|xs| - 1]]
  }

  ghost predicate Distinct(xs: seq<nat>)
  {
    forall i, j :: 0 <= i < j < |xs| ==> xs[i] != xs[j]
  }

  /** The position of the first occurrence of `x`. */
  function First(xs: seq<nat>, x: nat): (k: nat)
    requires x in xs
    ensures k < |xs| && xs[k] == x && x !in xs[..k]
  {
    if xs[0] == x then 0 else 1 + First(xs[1..], x)
  }

  lemma {:induction false} FirstOfPrefix(xs: seq<nat>, x: nat)
    requires |xs| > 0 && x in xs[..|xs| - 1]
    ensures First(xs, x) == First(xs[..|xs| - 1], x)
  {
    var k := First(xs[..|xs| - 1], x);
    var k' := First(xs, x);
    assert xs[..|xs| - 1][..k] == xs[..k];
  }

  /**
   * De-duplication keeps exactly the objects of the list, each once, in the
   * order of their first occurrence.
   */
  lemma {:induction false} DedupSpec(xs: seq<nat>)
    ensures forall x :: x in Dedup(xs) <==> x in xs
    ensures Distinct(Dedup(xs))
    ensures forall i, j :: 0 <= i < j < |Dedup(xs)| ==> First(xs, Dedup(xs)[i]) < First(xs, Dedup(xs)[j])
  {
    if |xs| > 0 {
      var init := xs[..|xs| - 1];
      var last := xs[|xs| - 1];
      DedupSpec(init);
      assert xs == init + [last];
      var d := Dedup(xs);
      forall i | 0 <= i < |d| && d[i] in init ensures First(xs, d[i]) == First(init, d[i]) {
        FirstOfPrefix(xs, d[i]);
      }
      if last !in Dedup(init) {
        assert First(xs, last) == |xs| - 1;
        forall i | 0 <= i < |d| - 1 ensures First(xs, d[i]) < First(xs, last) {
          assert d[i] == Dedup(init)[i];
        }
      }
    }
  }

  /** De-duplicating a list of distinct objects changes nothing. */
  lemma {:induction false} DedupDistinct(xs: seq<nat>)
    requires Distinct(xs)
    ensures Dedup(xs) == xs
  {
    if |xs| > 0 {
      var init := xs[..|xs| - 1];
      DedupDistinct(init);
      DedupSpec(init);
      assert xs[|xs| - 1] !in init;
      assert xs == init + [xs[|xs| - 1]];
    }
  }

  /** De-duplication is idempotent. */
  lemma {:induction false} DedupIdempotent(xs: seq<nat>)
    ensures Dedup(Dedup(xs)) == Dedup(xs)
  {
    DedupSpec(xs);
    DedupDistinct(Dedup(xs));
  }

  // ---------------------------------------------------------------------
  // Regrouping the sub-element names

  function ObjectsOf(subs: seq<SubSet>): (r: seq<nat>)
    ensures |r| == |subs| && forall i :: 0 <= i < |subs| ==> r[i] == subs[i].obj
  {
    seq(|subs|, i requires 0 <= i < |subs| => subs[i].obj)
  }

  /** All sub-element names listed for `obj`, entry after entry. */
  function Collected(subs: seq<SubSet>, obj: nat): seq<string>
  {
    if |subs| == 0 then []
    else Collected(subs[..|subs| - 1], obj) + (if subs[|subs| - 1].obj == obj then subs[|subs| - 1].subs else [])
  }

  /** The names `obj` ends up with: those collected, or the whole shape when it had no entry. */
  function SubsFor(subs: seq<SubSet>, obj: nat): seq<string>
  {
    if obj in ObjectsOf(subs) then Collected(subs, obj) else [""]
  }

  /** `OriginalSubs` rebuilt from `Originals`: one entry per object, in order of first occurrence. */
  function Regrouped(objs: seq<nat>, subs: seq<SubSet>): (r: seq<SubSet>)
    ensures |r| == |Dedup(objs)|
  {
    var d := Dedup(objs);
    seq(|d|, i requires 0 <= i < |d| => SubSet(d[i], SubsFor(subs, d[i])))
  }

  /** Some entry of `OriginalSubs` names an object no longer in `Originals`. */
  predicate Leftover(objs: seq<nat>, subs: seq<SubSet>)
  {
    exists i :: 0 <= i < |subs| && subs[i].obj !in objs
  }

  /** Some object of `Originals` has no entry in `OriginalSubs`. */
  predicate Missing(objs: seq<nat>, subs: seq<SubSet>)
  {
    exists i :: 0 <= i < |objs| && objs[i] !in ObjectsOf(subs)
  }

  /** When the `Originals` handler rewrites `OriginalSubs`. */
  predicate RewritesSubs(objs: seq<nat>, subs: seq<SubSet>)
  {
    Leftover(objs, subs) || Missing(objs, subs) || subs != Regrouped(objs, subs)
  }

  /** The rebuilt `OriginalSubs` lists exactly the de-duplicated `Originals`. */
  lemma {:induction false} RegroupedObjects(objs: seq<nat>, subs: seq<SubSet>)
    ensures ObjectsOf(Regrouped(objs, subs)) == Dedup(objs)
  {
  }

  /** With distinct objects, the names collected for an object are those of its one entry. */
  lemma {:induction false} CollectedOfDistinct(subs: seq<SubSet>, k: nat)
    requires Distinct(ObjectsOf(subs)) && k < |subs|
    ensures Collected(subs, subs[k].obj) == subs[k].subs
  {
    var init := subs[..|subs| - 1];
    assert ObjectsOf(init) == ObjectsOf(subs)[..|subs| - 1];
    if k < |subs| - 1 {
      CollectedOfDistinct(init, k);
      assert init[k] == subs[k];
    } else {
      CollectedAbsent(init, subs[k].obj);
    }
  }

  lemma {:induction false} CollectedAbsent(subs: seq<SubSet>, obj: nat)
    requires obj !in ObjectsOf(subs)
    ensures Collected(subs, obj) == []
  {
    if |subs| > 0 {
      assert ObjectsOf(subs[..|subs| - 1]) == ObjectsOf(subs)[..|subs| - 1];
      CollectedAbsent(subs[..|subs| - 1], obj);
    }
  }

  /**
   * Rebuilding is a fixpoint: once `OriginalSubs` has been rebuilt from
   * `Originals`, a further change notice for `Originals` rewrites nothing.
   */
  lemma {:induction false} RegroupedStable(objs: seq<nat>, subs: seq<SubSet>)
    ensures Regrouped(objs, Regrouped(objs, subs)) == Regrouped(objs, subs)
    ensures !RewritesSubs(objs, Regrouped(objs, subs))
  {
    var r := Regrouped(objs, subs);
    var d := Dedup(objs);
    DedupSpec(objs);
    RegroupedObjects(objs, subs);
    forall i | 0 <= i < |d| ensures SubsFor(r, d[i]) == r[i].subs {
      assert d[i] in ObjectsOf(r);
      CollectedOfDistinct(r, i);
    }
    assert !Leftover(objs, r) by {
      forall i | 0 <= i < |r| ensures r[i].obj in objs {
        assert r[i].obj == d[i];
      }
    }
    assert !Missing(objs, r) by {
      forall i | 0 <= i < |objs| ensures objs[i] in ObjectsOf(r) {
        assert objs[i] in d;
      }
    }
  }

  /**
   * Rebuilding loses no name of an object still linked: every entry for an
   * object of `Originals` has its names, in order, inside the one rebuilt
   * entry for that object.
   */
  lemma {:induction false} RegroupedKeepsNames(objs: seq<nat>, subs: seq<SubSet>, k: nat)
    requires k < |subs| && subs[k].obj in objs
    ensures exists i :: (0 <= i < |Regrouped(objs, subs)| && Regrouped(objs, subs)[i].obj == subs[k].obj
                         && IsInfix(subs[k].subs, Regrouped(objs, subs)[i].subs))
  {
    DedupSpec(objs);
    var d := Dedup(objs);
    var i :| 0 <= i < |d| && d[i] == subs[k].obj;
    assert subs[k].obj in ObjectsOf(subs);
    CollectedHasEntry(subs, k);
    assert Regrouped(objs, subs)[i].obj == subs[k].obj;
  }

  /** `xs` occurs as a contiguous piece of `ys`. */
  ghost predicate IsInfix(xs: seq<string>, ys: seq<string>)
  {
    exists a, b :: 0 <= a <= b <= |ys| && ys[a..b] == xs
  }

  lemma {:induction false} CollectedHasEntry(subs: seq<SubSet>, k: nat)
    requires k < |subs|
    ensures IsInfix(subs[k].subs, Collected(subs, subs[k].obj))
  {
    var init := subs[..|subs| - 1];
    var last := subs[|subs| - 1];
    var obj := subs[k].obj;
    var c := Collected(subs, obj);
    if k < |subs| - 1 {
      CollectedHasEntry(init, k);
      assert init[k] == subs[k];
      var a, b :| 0 <= a <= b <= |Collected(init, obj)| && Collected(init, obj)[a..b] == subs[k].subs;
      assert c[a..b] == Collected(init, obj)[a..b];
    } else {
      var n := |Collected(init, obj)|;
      assert c[n..|c|] == subs[k].subs;
    }
  }

  // ---------------------------------------------------------------------
  // The feature's two properties

  class TransformedLinks {
    var originals: seq<nat>
    var originalSubs: seq<SubSet>

    constructor (originals: seq<nat>, originalSubs: seq<SubSet>)
      ensures this.originals == originals && this.originalSubs == originalSubs
    {
      this.originals := originals;
      this.originalSubs := originalSubs;
    }

    /**
     * `onChanged` for `Originals`. `ready` stands for: not restoring, in a
     * document, not undoing or redoing, and not a change made by the
     * handlers themselves. `OriginalSubs` is rebuilt from `Originals` and
     * written when an entry is left over, an object had no entry, or the
     * lists differ; `wrote` says whether it was.
     */
    method OnOriginalsChanged(ready: bool) returns (wrote: bool)
      modifies this
      ensures originals == old(originals)
      ensures !ready ==> originalSubs == old(originalSubs) && !wrote
      ensures ready ==> originalSubs == Regrouped(old(originals), old(originalSubs))
      ensures ready ==> wrote == RewritesSubs(old(originals), old(originalSubs))
    {
      wrote := false;
      if !ready {
        return;
      }
      var subset, leftover, touched := RegroupLinks(originals, originalSubs);
      if leftover || touched || originalSubs != subset {
        originalSubs := subset;
        wrote := true;
      }
    }

    /**
     * `onChanged` for `OriginalSubs`: `Originals` becomes the objects of
     * `OriginalSubs` in order of first occurrence, written only when that
     * differs from what it held.
     */
    method OnOriginalSubsChanged(ready: bool) returns (wrote: bool)
      modifies this
      ensures originalSubs == old(originalSubs)
      ensures !ready ==> originals == old(originals) && !wrote
      ensures ready ==> originals == Dedup(ObjectsOf(old(originalSubs)))
      ensures ready ==> wrote == (old(originals) != Dedup(ObjectsOf(old(originalSubs))))
    {
      wrote := false;
      if !ready {
        return;
      }
      var values := ObjectsOf(originalSubs);
      var objSet: set<nat> := {};
      var objs: seq<nat> := [];
      for i := 0 to |values|
        invariant objs == Dedup(values[..i])
        invariant forall o :: o in objSet <==> o in objs
      {
        assert values[..i + 1][..i] == values[..i];
        if values[i] !in objSet {
          objSet := objSet + {values[i]};
          objs := objs + [values[i]];
        }
      }
      assert values[..|values|] == values;
      if objs != originals {
        originals := objs;
        wrote := true;
      }
    }

    /** `onDocumentRestored`: a file with only `Originals` gets one whole-shape entry per object. */
    method OnDocumentRestored()
      modifies this
      ensures originals == old(originals)
      ensures |old(originalSubs)| == 0 && |originals| > 0 ==> originalSubs == WholeShapes(originals)
      ensures !(|old(originalSubs)| == 0 && |originals| > 0) ==> originalSubs == old(originalSubs)
      ensures |old(originalSubs)| == 0 ==> ObjectsOf(originalSubs) == originals
    {
      if |originalSubs| == 0 && |originals| > 0 {
        originalSubs := WholeShapes(originals);
      }
    }
  }

  /** One whole-shape entry per object. */
  function WholeShapes(objs: seq<nat>): (r: seq<SubSet>)
    ensures ObjectsOf(r) == objs
    ensures forall i :: 0 <= i < |r| ==> r[i].subs == [""]
  {
    seq(|objs|, i requires 0 <= i < |objs| => SubSet(objs[i], [""]))
  }

  /**
   * The body of the `Originals` handler: rebuilds `OriginalSubs` from the
   * objects, tracking whether an object had no entry (`touched`) and whether
   * entries were left over.
   */
  method RegroupLinks(objs: seq<nat>, subs: seq<SubSet>) returns (subset: seq<SubSet>, leftover: bool, touched: bool)
    ensures subset == Regrouped(objs, subs)
    ensures leftover == Leftover(objs, subs)
    ensures touched == Missing(objs, subs)
  {
    var subMap := GroupNames(subs);
    subset := [];
    var objSet: set<nat> := {};
    touched := false;
    for i := 0 to |objs|
      invariant forall o :: o in objSet <==> o in objs[..i]
      invariant subset == Regrouped(objs[..i], subs)
      invariant forall o :: o in subMap <==> o in ObjectsOf(subs) && o !in objs[..i]
      invariant forall o :: o in subMap ==> subMap[o] == Collected(subs, o)
      invariant touched == Missing(objs[..i], subs)
    {
      var obj := objs[i];
      RegroupStep(objs, subs, i);
      if obj in objSet {
        continue;
      }
      if obj !in subMap {
        touched := true;
        subset := subset + [SubSet(obj, [""])];
        objSet := objSet + {obj};
        continue;
      }
      subset := subset + [SubSet(obj, subMap[obj])];
      subMap := subMap - {obj};
      objSet := objSet + {obj};
    }
    assert objs[..|objs|] == objs;
    LeftoverKeys(objs, subs, subMap);
    leftover := |subMap| > 0;
  }

  /** One step of the `Originals` handler's loop: the rebuilt prefix grows by the new object, if new. */
  lemma {:induction false} RegroupStep(objs: seq<nat>, subs: seq<SubSet>, i: nat)
    requires i < |objs|
    ensures objs[..i + 1] == objs[..i] + [objs[i]]
    ensures objs[i] in objs[..i] ==> Regrouped(objs[..i + 1], subs) == Regrouped(objs[..i], subs)
    ensures objs[i] !in objs[..i] ==>
      Regrouped(objs[..i + 1], subs) == Regrouped(objs[..i], subs) + [SubSet(objs[i], SubsFor(subs, objs[i]))]
    ensures Missing(objs[..i + 1], subs) == (Missing(objs[..i], subs) || objs[i] !in ObjectsOf(subs))
  {
    var p := objs[..i + 1];
    assert p[..i] == objs[..i];
    DedupSpec(objs[..i]);
    assert Missing(p, subs) ==> (Missing(objs[..i], subs) || objs[i] !in ObjectsOf(subs)) by {
      if Missing(p, subs) {
        var k :| 0 <= k < |p| && p[k] !in ObjectsOf(subs);
        if k < i {
          assert objs[..i][k] == p[k];
        }
      }
    }
    assert Missing(objs[..i], subs) ==> Missing(p, subs) by {
      if Missing(objs[..i], subs) {
        var k :| 0 <= k < i && objs[..i][k] !in ObjectsOf(subs);
        assert p[k] == objs[..i][k];
      }
    }
  }

  /** The keys left in the map after the handler's loop are exactly the left-over objects. */
  lemma {:induction false} LeftoverKeys(objs: seq<nat>, subs: seq<SubSet>, subMap: map<nat, seq<string>>)
    requires forall o :: o in subMap <==> o in ObjectsOf(subs) && o !in objs
    ensures |subMap| > 0 <==> Leftover(objs, subs)
  {
    if Leftover(objs, subs) {
      var i :| 0 <= i < |subs| && subs[i].obj !in objs;
      assert ObjectsOf(subs)[i] == subs[i].obj;
      assert subs[i].obj in subMap.Keys;
    }
    if |subMap| > 0 {
      assert subMap.Keys != {};
      var o :| o in subMap.Keys;
      var i :| 0 <= i < |subs| && ObjectsOf(subs)[i] == o;
    }
  }

  /** The first loop of the `Originals` handler: the names of each object, gathered over all its entries. */
  method GroupNames(subs: seq<SubSet>) returns (subMap: map<nat, seq<string>>)
    ensures forall o :: o in subMap <==> o in ObjectsOf(subs)
    ensures forall o :: o in subMap ==> subMap[o] == Collected(subs, o)
  {
    subMap := map[];
    for i := 0 to |subs|
      invariant forall o :: o in subMap <==> o in ObjectsOf(subs[..i])
      invariant forall o :: o in subMap ==> subMap[o] == Collected(subs[..i], o)
    {
      var p := subs[..i + 1];
      assert p[..i] == subs[..i];
      assert ObjectsOf(p) == ObjectsOf(subs[..i]) + [subs[i].obj];
      var v := subs[i];
      var names := if v.obj in subMap then subMap[v.obj] else [];
      if v.obj !in subMap {
        CollectedAbsent(subs[..i], v.obj);
      }
      subMap := subMap[v.obj := names + v.subs];
    }
    assert subs[..|subs|] == subs;
  }
}
