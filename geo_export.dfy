/**
 * The export list of a geo-feature group's view provider: the group's
 * members that no sibling member claims as a child (only children the
 * sibling links to with a non-global scope count as claimed), in group order,
 * and the replacement of one exported child by another.
 *
 * Objects are identified by number; everything the extension asks of an
 * object (its name, its extensions, its view provider, the children that view
 * provider claims, the objects its scoped link properties reach) is a field
 * of `ObjInfo`.
 */
module GeoExport {
  import opened Wrappers

  /** A slot of an object list: a null pointer or a document object. */
  datatype Ref = Null | Obj(id: nat)

  datatype ObjInfo = ObjInfo(
    named: bool,                 // `getNameInDocument()` is not null
    geoGroup: bool,              // the object has a geo-feature group extension
    viewProvider: Option<nat>,   // the view provider the application knows for it
    claimed: seq<Ref>,           // what that view provider's `claimChildren()` returns
    scopedLinks: set<Ref>)       // objects reached by its links whose scope is not global

  type World = map<nat, ObjInfo>

  /** Every object of `xs` is known. */
  predicate Known(w: World, xs: seq<Ref>)
  {
    forall i :: 0 <= i < |xs| && xs[i].Obj? ==> xs[i].id in w
  }

  // ---------------------------------------------------------------------
  // Order-preserving filtering

  /** The elements of `xs` satisfying `p`, in their order. */
  function Filter(xs: seq<Ref>, p: Ref -> bool): seq<Ref>
  {
    if |xs| == 0 then [] else (if p(xs[0]) then [xs[0]] else []) + Filter(xs[1..], p)
  }

  lemma {:induction false} FilterSpec(xs: seq<Ref>, p: Ref -> bool)
    ensures forall x :: x in Filter(xs, p) <==> x in xs && p(x)
    ensures |Filter(xs, p)| <= |xs|
    ensures (forall i :: 0 <= i < |xs| ==> p(xs[i])) ==> Filter(xs, p) == xs
  {
    if |xs| > 0 {
      FilterSpec(xs[1..], p);
      assert xs == [xs[0]] + xs[1..];
      assert (forall i :: 0 <= i < |xs| ==> p(xs[i])) ==> forall i :: 0 <= i < |xs[1..]| ==> p(xs[1..][i]) by {
        if forall i :: 0 <= i < |xs| ==> p(xs[i]) {
          forall i | 0 <= i < |xs[1..]| ensures p(xs[1..][i]) { assert xs[1..][i] == xs[i + 1]; }
        }
      }
    }
  }

  /** Filtering distributes over concatenation, so kept elements keep their relative order. */
  lemma {:induction false} FilterAppend(xs: seq<Ref>, ys: seq<Ref>, p: Ref -> bool)
    ensures Filter(xs + ys, p) == Filter(xs, p) + Filter(ys, p)
  {
    if |xs| == 0 {
      assert xs + ys == ys;
    } else {
      assert (xs + ys)[0] == xs[0];
      assert (xs + ys)[1..] == xs[1..] + ys;
      FilterAppend(xs[1..], ys, p);
    }
  }

  /**
   * The erase-while-iterating loop of the source: each element failing `p` is
   * erased in place, the iterator staying put; the others are stepped over.
   */
  method EraseUnless(children: seq<Ref>, p: Ref -> bool) returns (r: seq<Ref>)
    ensures r == Filter(children, p)
  {
    r := children;
    var i := 0;
    while i < |r|
      invariant 0 <= i <= |r|
      invariant r[..i] + Filter(r[i..], p) == Filter(children, p)
      decreases |r| - i
    {
      assert r[i..] == [r[i]] + r[i + 1..];
      if !p(r[i]) {
        var r' := r[..i] + r[i + 1..];
        assert r'[..i] == r[..i] && r'[i..] == r[i + 1..];
        r := r';
      } else {
        assert r[..i + 1] == r[..i] + [r[i]];
        i := i + 1;
      }
    }
    assert r[i..] == [];
    assert r[..i] == r;
  }

  // ---------------------------------------------------------------------
  // filterLinksByScope

  /** Whether `filterLinksByScope` looks at `obj` at all: not null and named. */
  predicate Scoped(w: World, obj: Ref)
    requires obj.Obj? ==> obj.id in w
  {
    obj.Obj? && w[obj.id].named
  }

  /** The children of `obj` that survive `filterLinksByScope`. */
  function LinkedChildren(w: World, obj: Ref, children: seq<Ref>): seq<Ref>
    requires obj.Obj? ==> obj.id in w
  {
    if Scoped(w, obj) then Filter(children, (x: Ref) => x in w[obj.id].scopedLinks) else children
  }

  /**
   * A null or unnamed object leaves the list alone; otherwise exactly the
   * children reached by one of the object's non-global links stay, in order.
   */
  lemma {:induction false} LinkedChildrenSpec(w: World, obj: Ref, children: seq<Ref>)
    requires obj.Obj? ==> obj.id in w
    ensures !Scoped(w, obj) ==> LinkedChildren(w, obj, children) == children
    ensures Scoped(w, obj) ==>
      forall x :: x in LinkedChildren(w, obj, children) <==> x in children && x in w[obj.id].scopedLinks
  {
    if Scoped(w, obj) { FilterSpec(children, (x: Ref) => x in w[obj.id].scopedLinks); }
  }

  method FilterLinksByScope(w: World, obj: Ref, children: seq<Ref>) returns (r: seq<Ref>)
    requires obj.Obj? ==> obj.id in w
    ensures r == LinkedChildren(w, obj, children)
  {
    if !Scoped(w, obj) {
      return children;
    }
    var links := w[obj.id].scopedLinks;
    r := EraseUnless(children, (x: Ref) => x in links);
  }

  // ---------------------------------------------------------------------
  // buildExport

  /** A member whose claimed children count: not null, not a geo group, with a view provider other than the owner's. */
  predicate Claims(w: World, owner: nat, obj: Ref)
    requires obj.Obj? ==> obj.id in w
  {
    obj.Obj? && !w[obj.id].geoGroup && w[obj.id].viewProvider.Some? && w[obj.id].viewProvider.value != owner
  }

  /** `outSet`: the scope-filtered claimed children of the claiming members of `model`. */
  function OutSet(w: World, owner: nat, model: seq<Ref>): set<Ref>
    requires Known(w, model)
  {
    if |model| == 0 then {}
    else
      var obj := model[|model| - 1];
      OutSet(w, owner, model[..|model| - 1])
      + (if Claims(w, owner, obj) then set x | x in LinkedChildren(w, obj, w[obj.id].claimed) else {})
  }

  /**
   * An object is claimed exactly when some claiming member's view provider
   * claims it and the scope filter lets it through; geo groups, members
   * without a view provider and the owner's own view provider claim nothing.
   */
  lemma {:induction false} OutSetSpec(w: World, owner: nat, model: seq<Ref>)
    requires Known(w, model)
    ensures forall x :: x in OutSet(w, owner, model) <==>
      exists i :: 0 <= i < |model| && Claims(w, owner, model[i])
                  && x in LinkedChildren(w, model[i], w[model[i].id].claimed)
  {
    if |model| > 0 {
      var init := model[..|model| - 1];
      assert Known(w, init) by {
        forall i | 0 <= i < |init| && init[i].Obj? ensures init[i].id in w { assert init[i] == model[i]; }
      }
      OutSetSpec(w, owner, init);
      forall i | 0 <= i < |init| ensures init[i] == model[i] { }
    }
  }

  /** `getNameInDocument()` of a slot, false for null. */
  predicate Named(w: World, x: Ref)
    requires x.Obj? ==> x.id in w
  {
    x.Obj? && w[x.id].named
  }

  /** The members `buildExport` keeps: named objects no sibling claims. */
  function ExportList(w: World, owner: nat, model: seq<Ref>): seq<Ref>
    requires Known(w, model)
  {
    var out := OutSet(w, owner, model);
    Filter(model, (x: Ref) => x.Obj? && x.id in w && w[x.id].named && x !in out)
  }

  /** The export list is the group list minus null, unnamed and claimed objects, in order. */
  lemma {:induction false} ExportListSpec(w: World, owner: nat, model: seq<Ref>)
    requires Known(w, model)
    ensures forall x :: x in ExportList(w, owner, model) <==>
      x in model && Named(w, x) && x !in OutSet(w, owner, model)
  {
    FilterSpec(model, (x: Ref) => x.Obj? && x.id in w && w[x.id].named && x !in OutSet(w, owner, model));
    forall x | x in model ensures x.Obj? ==> x.id in w {
      var i :| 0 <= i < |model| && model[i] == x;
    }
  }

  /** The export list of a group whose members are all unclaimed, named objects is the group itself. */
  lemma {:induction false} ExportListAllKept(w: World, owner: nat, model: seq<Ref>)
    requires Known(w, model)
    requires forall i :: 0 <= i < |model| ==> Named(w, model[i]) && model[i] !in OutSet(w, owner, model)
    ensures ExportList(w, owner, model) == model
  {
    FilterSpec(model, (x: Ref) => x.Obj? && x.id in w && w[x.id].named && x !in OutSet(w, owner, model));
  }

  class GeoGroupView {
    /** The owner's view provider. */
    const owner: nat
    /** The group's `Group` property. */
    var group: seq<Ref>
    /** The group's `_ExportChildren` property. */
    var exportChildren: seq<Ref>

    constructor (owner: nat, group: seq<Ref>, exportChildren: seq<Ref>)
      ensures this.owner == owner && this.group == group && this.exportChildren == exportChildren
    {
      this.owner := owner;
      this.group := group;
      this.exportChildren := exportChildren;
    }

    /** The outSet loop of `buildExport`. */
    method CollectClaimed(w: World, model: seq<Ref>) returns (out: set<Ref>)
      requires Known(w, model)
      ensures out == OutSet(w, owner, model)
    {
      out := {};
      var i := 0;
      while i < |model|
        invariant 0 <= i <= |model|
        invariant Known(w, model[..i])
        invariant out == OutSet(w, owner, model[..i])
      {
        var obj := model[i];
        assert model[..i + 1][..i] == model[..i] && model[..i + 1][i] == obj;
        if Claims(w, owner, obj) {
          var children := FilterLinksByScope(w, obj, w[obj.id].claimed);
          out := out + set x | x in children;
        }
        i := i + 1;
      }
      assert model[..i] == model;
    }

    /**
     * `buildExport`: `_ExportChildren` becomes the export list of the group,
     * written only when it differs from the current value.
     */
    method BuildExport(w: World)
      requires Known(w, group)
      modifies this
      ensures group == old(group)
      ensures exportChildren == ExportList(w, owner, group)
    {
      var model := group;
      var out := CollectClaimed(w, model);
      model := EraseUnless(model, (x: Ref) => x.Obj? && x.id in w && w[x.id].named && x !in out);
      if exportChildren != model {
        exportChildren := model;
      }
    }

    /**
     * The list update of `extensionReplaceObject`: nothing unless `oldValue`
     * is exported; otherwise the group becomes the export list with every
     * occurrence of `oldValue` replaced by `newValue`. Emptying the group
     * and adding the new list is taken as one assignment of that list.
     */
    method ReplaceObject(oldValue: Ref, newValue: Ref) returns (r: int)
      requires oldValue.Obj?
      modifies this
      ensures r == (if oldValue in old(exportChildren) then 1 else 0)
      ensures exportChildren == old(exportChildren)
      ensures r == 0 ==> group == old(group)
      ensures r == 1 ==> group == Replaced(old(exportChildren), oldValue, newValue)
    {
      if oldValue !in exportChildren {
        return 0;
      }
      var children := exportChildren;
      for i := 0 to |children|
        invariant |children| == |exportChildren|
        invariant forall j :: 0 <= j < i ==> children[j] == Swap(exportChildren[j], oldValue, newValue)
        invariant forall j :: i <= j < |children| ==> children[j] == exportChildren[j]
      {
        if children[i] == oldValue {
          children := children[i := newValue];
        }
      }
      group := children;
      return 1;
    }
  }

  function Swap(x: Ref, oldValue: Ref, newValue: Ref): Ref
  {
    if x == oldValue then newValue else x
  }

  /** The list with every `oldValue` replaced by `newValue`. */
  function Replaced(xs: seq<Ref>, oldValue: Ref, newValue: Ref): (r: seq<Ref>)
    ensures |r| == |xs|
  {
    seq(|xs|, i requires 0 <= i < |xs| => Swap(xs[i], oldValue, newValue))
  }

  /** Replacing leaves no `oldValue` behind, puts `newValue` where it was, and changes nothing else. */
  lemma {:induction false} ReplacedSpec(xs: seq<Ref>, oldValue: Ref, newValue: Ref)
    requires oldValue != newValue
    ensures oldValue !in Replaced(xs, oldValue, newValue)
    ensures forall i :: 0 <= i < |xs| ==>
      Replaced(xs, oldValue, newValue)[i] == (if xs[i] == oldValue then newValue else xs[i])
    ensures oldValue in xs ==> newValue in Replaced(xs, oldValue, newValue)
  {
    if oldValue in xs {
      var i :| 0 <= i < |xs| && xs[i] == oldValue;
      assert Replaced(xs, oldValue, newValue)[i] == newValue;
    }
  }

  // ---------------------------------------------------------------------
  // The size-only comparison of `buildExport` as written

  /**
   * `_ExportChildren` after `buildExport` as the source writes it: the new
   * list is stored only if its size differs from the stored one.
   */
  function ExportAsWritten(stored: seq<Ref>, model: seq<Ref>): seq<Ref>
  {
    if |stored| != |model| then model else stored
  }

  /** A group whose member is swapped for another keeps the stale export list. */
  lemma {:induction false} ExportAsWrittenStale()
    ensures ExportAsWritten([Obj(1), Obj(2)], [Obj(1), Obj(3)]) != [Obj(1), Obj(3)]
  {
  }

  /**
   * The size-only comparison leaves `_ExportChildren` right exactly when the
   * size changed or the stored list already was the export list.
   */
  lemma {:induction false} ExportAsWrittenCorrectIff(stored: seq<Ref>, model: seq<Ref>)
    ensures ExportAsWritten(stored, model) == model <==> |stored| != |model| || stored == model
  {
  }
}
