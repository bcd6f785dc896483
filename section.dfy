/**
 * The section pass driver. A draw entry cut by clip planes is drawn in one
 * or more passes; before each pass `renderSection` sets up the clip planes
 * and, for triangles, fills the section of a plane through the stencil
 * buffer. The caller repeats the draw while `renderSection` returns true.
 *
 * The geometry of the fill quad and of the hatch is not modelled: a stencil
 * pass and a fill of plane `k` are the single commands `StencilPass(k)` and
 * `CapFill(k)`. What is tracked is which clip planes are enabled.
 */
module Section {
  import opened RenderTypes

  /** What `renderSection` reads: the applied material, the draw entry and the view parameters. */
  datatype SectionInput = SectionInput(
    numclip: nat,            // clip planes of the applied material
    sectionConcave: bool,    // view parameter
    sectionFill: bool,       // view parameter
    depthwriteonly: bool,
    partidx: int,            // of the entry's vertex cache
    kind: PrimType,          // of the entry's material
    depthfunc: DepthFunc,    // of the applied material
    offsetFilled: bool)      // the applied material's polygon offset has the FILLED bit

  /** The result of one call, and the values of the `pass` and `pushed` references after it. */
  datatype SectionStep = SectionStep(more: bool, pass: nat, pushed: bool, cmds: seq<GLCmd>)

  predicate Concave(inp: SectionInput)
  {
    inp.sectionConcave && inp.numclip > 1
  }

  /** Concave sectioning is on: one pass per clip plane. */
  predicate ConcaveActive(inp: SectionInput)
  {
    !inp.depthwriteonly && inp.partidx < 0 && Concave(inp)
  }

  /** Convex section filling of triangles is on: all planes are filled in the first call. */
  predicate TriFillActive(inp: SectionInput)
  {
    !inp.depthwriteonly && inp.partidx < 0 && !Concave(inp) && inp.sectionFill &&
    inp.numclip >= 1 && inp.kind == Triangle
  }

  // ---------------------------------------------------------------------
  // Clip planes

  function StepPlanes(on: set<nat>, x: GLCmd): set<nat>
  {
    match x
    case Enable(c) => if c.ClipPlane? then on + {c.plane} else on
    case Disable(c) => if c.ClipPlane? then on - {c.plane} else on
    case _ => on
  }

  /** The enabled clip planes after `xs`, starting from `on`. */
  function PlanesAfter(on: set<nat>, xs: seq<GLCmd>): set<nat>
    decreases |xs|
  {
    if |xs| == 0 then on else StepPlanes(PlanesAfter(on, xs[..|xs| - 1]), xs[|xs| - 1])
  }

  lemma {:induction false} PlanesAfterAppend(on: set<nat>, xs: seq<GLCmd>, ys: seq<GLCmd>)
    ensures PlanesAfter(on, xs + ys) == PlanesAfter(PlanesAfter(on, xs), ys)
    decreases |ys|
  {
    if |ys| == 0 {
      assert xs + ys == xs;
    } else {
      assert (xs + ys)[..|xs + ys| - 1] == xs + ys[..|ys| - 1];
      PlanesAfterAppend(on, xs, ys[..|ys| - 1]);
    }
  }

  /** Every clip-plane command of `xs` is about a plane below `n`. */
  predicate Touches(xs: seq<GLCmd>, n: nat)
  {
    forall x :: x in xs && (x.Enable? || x.Disable?) && x.cap.ClipPlane? ==> x.cap.plane < n
  }

  /** `xs` fills no section. */
  predicate NoFill(xs: seq<GLCmd>)
  {
    forall x :: x in xs ==> !x.CapFill?
  }

  /** Planes no command touches keep their state. */
  lemma {:induction false} UntouchedPlanes(on: set<nat>, xs: seq<GLCmd>, n: nat, i: nat)
    requires Touches(xs, n) && i >= n
    ensures i in PlanesAfter(on, xs) <==> i in on
    decreases |xs|
  {
    if |xs| > 0 {
      var init := xs[..|xs| - 1];
      forall x | x in init ensures x in xs {
        var j :| 0 <= j < |init| && init[j] == x;
        assert xs[j] == x;
      }
      UntouchedPlanes(on, init, n, i);
    }
  }

  /** Only plane `k` of the planes below `n` is enabled. */
  predicate Only(on: set<nat>, n: nat, k: nat)
  {
    forall i :: 0 <= i < n ==> (i in on <==> i == k)
  }

  /** The loop enabling plane `k` and disabling every other plane below `n`. */
  function SelectPlanes(n: nat, k: nat): seq<GLCmd>
  {
    if n == 0 then []
    else SelectPlanes(n - 1, k) + [if n - 1 == k then Enable(ClipPlane(n - 1)) else Disable(ClipPlane(n - 1))]
  }

  /** The loop enabling the planes below `n` but `k`. */
  function EnableOthers(n: nat, k: nat): seq<GLCmd>
  {
    if n == 0 then [] else EnableOthers(n - 1, k) + (if n - 1 != k then [Enable(ClipPlane(n - 1))] else [])
  }

  /** The loop enabling the planes below `n`. */
  function EnablePlanes(n: nat): seq<GLCmd>
  {
    if n == 0 then [] else EnablePlanes(n - 1) + [Enable(ClipPlane(n - 1))]
  }

  /** The loop disabling the planes from 1 to below `n`. */
  function DisableFromOne(n: nat): seq<GLCmd>
  {
    if n <= 1 then [] else DisableFromOne(n - 1) + [Disable(ClipPlane(n - 1))]
  }

  lemma {:induction false} SelectPlanesSpec(on: set<nat>, n: nat, k: nat)
    ensures Touches(SelectPlanes(n, k), n) && NoFill(SelectPlanes(n, k))
    ensures forall i: nat :: i in PlanesAfter(on, SelectPlanes(n, k)) <==> if i < n then i == k else i in on
  {
    if n > 0 {
      SelectPlanesSpec(on, n - 1, k);
      var xs := SelectPlanes(n, k);
      assert xs[..|xs| - 1] == SelectPlanes(n - 1, k);
    }
  }

  lemma {:induction false} EnableOthersSpec(on: set<nat>, n: nat, k: nat)
    ensures Touches(EnableOthers(n, k), n) && NoFill(EnableOthers(n, k))
    ensures forall i: nat :: i in PlanesAfter(on, EnableOthers(n, k)) <==> (i < n && i != k) || i in on
  {
    if n > 0 {
      EnableOthersSpec(on, n - 1, k);
      var xs := EnableOthers(n, k);
      if n - 1 != k {
        assert xs[..|xs| - 1] == EnableOthers(n - 1, k);
      } else {
        assert xs == EnableOthers(n - 1, k);
      }
    }
  }

  lemma {:induction false} EnablePlanesSpec(on: set<nat>, n: nat)
    ensures Touches(EnablePlanes(n), n) && NoFill(EnablePlanes(n))
    ensures forall i: nat :: i in PlanesAfter(on, EnablePlanes(n)) <==> i < n || i in on
  {
    if n > 0 {
      EnablePlanesSpec(on, n - 1);
      var xs := EnablePlanes(n);
      assert xs[..|xs| - 1] == EnablePlanes(n - 1);
    }
  }

  lemma {:induction false} DisableFromOneSpec(on: set<nat>, n: nat)
    ensures Touches(DisableFromOne(n), n) && NoFill(DisableFromOne(n))
    ensures forall i: nat :: i in PlanesAfter(on, DisableFromOne(n)) <==> (i == 0 || i >= n) && i in on
  {
    if n > 1 {
      DisableFromOneSpec(on, n - 1);
      var xs := DisableFromOne(n);
      assert xs[..|xs| - 1] == DisableFromOne(n - 1);
    }
  }

  // ---------------------------------------------------------------------
  // renderSection

  /** The depth function and polygon offset fix-ups of the first concave pass. */
  function ConcaveFixes(inp: SectionInput): seq<GLCmd>
  {
    (if inp.depthfunc != Less then [SetDepthFunc(Less)] else []) +
    (if inp.offsetFilled then [Disable(PolygonOffsetFill)] else [])
  }

  /** The attribute push, the first concave pass's fix-ups and the stencil switch-on. */
  function StencilSetup(inp: SectionInput, curpass: nat, pushed: bool): (r: seq<GLCmd>)
    ensures NoFill(r) && Touches(r, 0)
  {
    (if pushed then [] else [PushAttrib]) +
    (if curpass == 0 && Concave(inp) then ConcaveFixes(inp) else []) +
    [Enable(StencilTest)]
  }

  /** The planes re-enabled after the stencil pass in convex mode. */
  function ConvexOthers(inp: SectionInput, curpass: nat): seq<GLCmd>
  {
    if !Concave(inp) then EnableOthers(inp.numclip, curpass) else []
  }

  /** The stencil pass of plane `curpass`, up to the fill. */
  function FillPrefix(inp: SectionInput, curpass: nat, pushed: bool): seq<GLCmd>
  {
    StencilSetup(inp, curpass, pushed) + SelectPlanes(inp.numclip, curpass) + [StencilPass(curpass)] +
    ConvexOthers(inp, curpass) + [Disable(ClipPlane(curpass))]
  }

  /** The stencil pass and fill of plane `curpass`. */
  function FillCmds(inp: SectionInput, curpass: nat, pushed: bool): seq<GLCmd>
  {
    FillPrefix(inp, curpass, pushed) + [CapFill(curpass), Disable(StencilTest)]
  }

  /** A concave pass of a line or point entry: move the single enabled plane to `curpass`. */
  function LineCmds(inp: SectionInput, curpass: nat, pushed: bool): seq<GLCmd>
  {
    (if pushed then [] else [PushAttrib]) +
    (if curpass == 0 then DisableFromOne(inp.numclip) else [Disable(ClipPlane(curpass - 1))]) +
    [Enable(ClipPlane(curpass))]
  }

  /** The call `renderSection` with `pass == curpass` and `pushed`. */
  function Section(inp: SectionInput, curpass: nat, pushed: bool): SectionStep
    decreases if curpass <= inp.numclip then inp.numclip - curpass else 0
  {
    var concave := Concave(inp);
    if inp.depthwriteonly || curpass >= inp.numclip || inp.partidx >= 0 || (!inp.sectionFill && !concave) then
      SectionStep(curpass == 0, curpass + 1, pushed, [])
    else if inp.kind != Triangle then
      if !concave then SectionStep(curpass == 0, curpass + 1, pushed, [])
      else SectionStep(true, curpass + 1, true, LineCmds(inp, curpass, pushed))
    else if !concave then
      var rest := Section(inp, curpass + 1, true);
      SectionStep(true, rest.pass, rest.pushed,
                  FillCmds(inp, curpass, pushed) + rest.cmds + (if curpass == 0 then EnablePlanes(inp.numclip) else []))
    else
      SectionStep(true, curpass + 1, true, FillCmds(inp, curpass, pushed) + SelectPlanes(inp.numclip, curpass))
  }

  /** The planes of the sections filled by `xs`, in order. */
  function Fills(xs: seq<GLCmd>): seq<nat>
  {
    if |xs| == 0 then [] else (if xs[0].CapFill? then [xs[0].plane] else []) + Fills(xs[1..])
  }

  lemma {:induction false} FillsAppend(xs: seq<GLCmd>, ys: seq<GLCmd>)
    ensures Fills(xs + ys) == Fills(xs) + Fills(ys)
  {
    if |xs| == 0 {
      assert xs + ys == ys;
    } else {
      assert (xs + ys)[0] == xs[0];
      assert (xs + ys)[1..] == xs[1..] + ys;
      FillsAppend(xs[1..], ys);
    }
  }

  lemma {:induction false} FillsOfNoFill(xs: seq<GLCmd>)
    requires NoFill(xs)
    ensures Fills(xs) == []
  {
    if |xs| > 0 {
      assert xs[0] in xs;
      forall x | x in xs[1..] ensures x in xs {
        var j :| 0 <= j < |xs[1..]| && xs[1..][j] == x;
        assert xs[j + 1] == x;
      }
      FillsOfNoFill(xs[1..]);
    }
  }

  /** The stencil pass of plane `k` fills exactly that plane's section and touches no plane from `n` on. */
  lemma {:induction false} FillCmdsSpec(inp: SectionInput, k: nat, pushed: bool)
    requires k < inp.numclip
    ensures Fills(FillCmds(inp, k, pushed)) == [k]
    ensures Touches(FillCmds(inp, k, pushed), inp.numclip)
  {
    SelectPlanesSpec({}, inp.numclip, k);
    EnableOthersSpec({}, inp.numclip, k);
    var pre := FillPrefix(inp, k, pushed);
    assert NoFill(pre) && Touches(pre, inp.numclip);
    FillsOfNoFill(pre);
    var post := [CapFill(k), Disable(StencilTest)];
    assert post[1..] == [Disable(StencilTest)];
    FillsOfNoFill(post[1..]);
    FillsAppend(pre, post);
  }

  /** `0, 1, ..., n - 1`. */
  function Range(lo: nat, hi: nat): seq<nat>
    decreases hi - lo
  {
    if lo >= hi then [] else [lo] + Range(lo + 1, hi)
  }

  lemma {:induction false} RangeSnoc(lo: nat, hi: nat)
    requires lo <= hi
    ensures Range(lo, hi + 1) == Range(lo, hi) + [hi]
    decreases hi - lo
  {
    if lo < hi {
      RangeSnoc(lo + 1, hi);
    }
  }

  /**
   * The recursive chain of convex fills from plane `k` on: it fills planes
   * `k` to `numclip - 1`, in order, and leaves `pass` at `numclip + 1`.
   */
  lemma {:induction false} ConvexChain(inp: SectionInput, k: nat, pushed: bool)
    requires TriFillActive(inp) && 1 <= k <= inp.numclip
    ensures var s := Section(inp, k, pushed);
      s.pass == inp.numclip + 1 && s.more == (k < inp.numclip) &&
      Fills(s.cmds) == Range(k, inp.numclip) && Touches(s.cmds, inp.numclip) &&
      s.pushed == (pushed || k < inp.numclip)
    decreases inp.numclip - k
  {
    if k < inp.numclip {
      ConvexChain(inp, k + 1, true);
      var rest := Section(inp, k + 1, true);
      FillCmdsSpec(inp, k, pushed);
      FillsAppend(FillCmds(inp, k, pushed), rest.cmds);
      assert Section(inp, k, pushed).cmds == FillCmds(inp, k, pushed) + rest.cmds;
      assert Range(k, inp.numclip) == [k] + Range(k + 1, inp.numclip);
    }
  }

  /**
   * The first call of convex filling fills every plane's section in order,
   * returns true, leaves `pass` past the last plane and all planes below
   * `numclip` enabled.
   */
  lemma {:induction false} ConvexFirst(inp: SectionInput, pushed: bool, on: set<nat>)
    requires TriFillActive(inp)
    ensures var s := Section(inp, 0, pushed);
      s.more && s.pass == inp.numclip + 1 && s.pushed &&
      Fills(s.cmds) == Range(0, inp.numclip) &&
      forall i: nat :: i in PlanesAfter(on, s.cmds) <==> i < inp.numclip || i in on
  {
    var n := inp.numclip;
    var rest := Section(inp, 1, true);
    var head := FillCmds(inp, 0, pushed) + rest.cmds;
    var s := Section(inp, 0, pushed);
    assert s == SectionStep(true, rest.pass, rest.pushed, head + EnablePlanes(n));
    ConvexChain(inp, 1, true);
    ConvexFirstFills(inp, pushed, head, rest.cmds);
    ConvexFirstPlanes(on, head, n);
  }

  lemma {:induction false} ConvexFirstFills(inp: SectionInput, pushed: bool, head: seq<GLCmd>, rest: seq<GLCmd>)
    requires 0 < inp.numclip && head == FillCmds(inp, 0, pushed) + rest
    requires Fills(rest) == Range(1, inp.numclip) && Touches(rest, inp.numclip)
    ensures Fills(head + EnablePlanes(inp.numclip)) == Range(0, inp.numclip)
    ensures Touches(head, inp.numclip)
  {
    var n := inp.numclip;
    FillCmdsSpec(inp, 0, pushed);
    FillsAppend(FillCmds(inp, 0, pushed), rest);
    EnablePlanesSpec({}, n);
    FillsOfNoFill(EnablePlanes(n));
    FillsAppend(head, EnablePlanes(n));
    assert Range(0, n) == [0] + Range(1, n);
  }

  lemma {:induction false} ConvexFirstPlanes(on: set<nat>, head: seq<GLCmd>, n: nat)
    requires Touches(head, n)
    ensures forall i: nat :: i in PlanesAfter(on, head + EnablePlanes(n)) <==> i < n || i in on
  {
    EnablePlanesSpec(PlanesAfter(on, head), n);
    PlanesAfterAppend(on, head, EnablePlanes(n));
    forall i: nat | i >= n ensures i in PlanesAfter(on, head) <==> i in on {
      UntouchedPlanes(on, head, n, i);
    }
  }

  /**
   * A concave pass `k` returns true, advances `pass` by one and leaves
   * exactly plane `k` enabled below `numclip`; a line or point entry needs
   * the previous pass to have left plane `k - 1` alone. Triangles fill
   * plane `k`'s section first.
   */
  lemma {:induction false} ConcaveStep(inp: SectionInput, k: nat, pushed: bool, on: set<nat>)
    requires ConcaveActive(inp) && k < inp.numclip
    requires inp.kind != Triangle && k > 0 ==> Only(on, inp.numclip, k - 1)
    ensures var s := Section(inp, k, pushed);
      s.more && s.pass == k + 1 && s.pushed &&
      Fills(s.cmds) == (if inp.kind == Triangle then [k] else []) &&
      Only(PlanesAfter(on, s.cmds), inp.numclip, k) &&
      forall i: nat :: i >= inp.numclip ==> (i in PlanesAfter(on, s.cmds) <==> i in on)
  {
    if inp.kind == Triangle {
      ConcaveFillStep(inp, k, pushed, on);
    } else {
      ConcaveLineStep(inp, k, pushed, on);
    }
  }

  lemma {:induction false} ConcaveFillStep(inp: SectionInput, k: nat, pushed: bool, on: set<nat>)
    requires ConcaveActive(inp) && k < inp.numclip && inp.kind == Triangle
    ensures var s := Section(inp, k, pushed);
      Fills(s.cmds) == [k] && Only(PlanesAfter(on, s.cmds), inp.numclip, k) &&
      forall i: nat :: i >= inp.numclip ==> (i in PlanesAfter(on, s.cmds) <==> i in on)
  {
    var n := inp.numclip;
    var fill := FillCmds(inp, k, pushed);
    assert Section(inp, k, pushed).cmds == fill + SelectPlanes(n, k);
    FillCmdsSpec(inp, k, pushed);
    SelectPlanesSpec(PlanesAfter(on, fill), n, k);
    FillsOfNoFill(SelectPlanes(n, k));
    FillsAppend(fill, SelectPlanes(n, k));
    PlanesAfterAppend(on, fill, SelectPlanes(n, k));
    forall i: nat | i >= n ensures i in PlanesAfter(on, fill) <==> i in on {
      UntouchedPlanes(on, fill, n, i);
    }
  }

  lemma {:induction false} ConcaveLineStep(inp: SectionInput, k: nat, pushed: bool, on: set<nat>)
    requires ConcaveActive(inp) && k < inp.numclip && inp.kind != Triangle
    requires k > 0 ==> Only(on, inp.numclip, k - 1)
    ensures var s := Section(inp, k, pushed);
      Fills(s.cmds) == [] && Only(PlanesAfter(on, s.cmds), inp.numclip, k) &&
      forall i: nat :: i >= inp.numclip ==> (i in PlanesAfter(on, s.cmds) <==> i in on)
  {
    assert Section(inp, k, pushed).cmds == LineCmds(inp, k, pushed);
    LineCmdsSpec(inp, k, pushed, on);
  }

  lemma {:induction false} LineCmdsSpec(inp: SectionInput, k: nat, pushed: bool, on: set<nat>)
    requires k < inp.numclip
    requires k > 0 ==> Only(on, inp.numclip, k - 1)
    ensures Fills(LineCmds(inp, k, pushed)) == [] && Only(PlanesAfter(on, LineCmds(inp, k, pushed)), inp.numclip, k)
    ensures forall i: nat :: i >= inp.numclip ==> (i in PlanesAfter(on, LineCmds(inp, k, pushed)) <==> i in on)
  {
    var n := inp.numclip;
    var a := if pushed then [] else [PushAttrib];
    var b := if k == 0 then DisableFromOne(n) else [Disable(ClipPlane(k - 1))];
    var ab := a + b;
    var cmds := LineCmds(inp, k, pushed);
    assert cmds == ab + [Enable(ClipPlane(k))];
    assert cmds[..|cmds| - 1] == ab;
    assert PlanesAfter(on, a) == on by {
      if !pushed { assert a[..0] == []; }
    }
    PlanesAfterAppend(on, a, b);
    if k == 0 {
      DisableFromOneSpec(on, n);
    } else {
      assert b[..0] == [];
    }
    assert NoFill(cmds);
    FillsOfNoFill(cmds);
  }

  /** A call past the last plane returns false and emits nothing. */
  lemma {:induction false} SectionPastEnd(inp: SectionInput, curpass: nat, pushed: bool)
    requires curpass >= inp.numclip && curpass > 0
    ensures var s := Section(inp, curpass, pushed);
      !s.more && s.cmds == [] && s.pushed == pushed
  {
  }

  /**
   * Without concave passes or convex triangle fills, the first call returns
   * true and emits nothing, and the second returns false.
   */
  lemma {:induction false} PlainOnce(inp: SectionInput, pushed: bool)
    requires !ConcaveActive(inp) && !TriFillActive(inp)
    ensures var s := Section(inp, 0, pushed);
      s == SectionStep(true, 1, pushed, []) && !Section(inp, 1, pushed).more &&
      Section(inp, 1, pushed).cmds == [] && Section(inp, 1, pushed).pushed == pushed
  {
  }

  // ---------------------------------------------------------------------
  // The caller's loop

  /** How many times `renderSection` returns true for one entry. */
  function Calls(inp: SectionInput): nat
  {
    if ConcaveActive(inp) then inp.numclip else 1
  }

  /** The clip planes enabled during draw `k` of an entry, starting from `on`. */
  predicate DrawPlane(inp: SectionInput, on: set<nat>, k: nat, i: nat)
  {
    if i >= inp.numclip then i in on
    else if ConcaveActive(inp) then i == k
    else if TriFillActive(inp) then true
    else i in on
  }

  /** The sections filled by the calls up to call `c`. */
  function FilledUpTo(inp: SectionInput, c: nat): seq<nat>
  {
    if inp.kind == Triangle && ConcaveActive(inp) then Range(0, if c + 1 < inp.numclip then c + 1 else inp.numclip)
    else if TriFillActive(inp) then Range(0, inp.numclip)
    else []
  }

  /** The value of `pass` after call `c`. */
  function PassAfter(inp: SectionInput, c: nat): nat
  {
    if !ConcaveActive(inp) && TriFillActive(inp) then (if c == 0 then inp.numclip + 1 else inp.numclip + 2)
    else c + 1
  }

  /**
   * The state of the loop after call `|draws|`, whose result is `s`: the
   * earlier draws saw the planes `DrawPlane` says, and the current planes are
   * those of the next draw if there is one.
   */
  ghost predicate LoopInv(inp: SectionInput, on: set<nat>, draws: seq<set<nat>>, s: SectionStep,
                          pass: nat, pushed: bool, cmds: seq<GLCmd>)
  {
    var c := |draws|;
    c <= Calls(inp) && (s.more <==> c < Calls(inp)) &&
    pass == s.pass == PassAfter(inp, c) && pushed == s.pushed == (ConcaveActive(inp) || TriFillActive(inp)) &&
    Fills(cmds) == FilledUpTo(inp, c) &&
    (c < Calls(inp) ==> forall i: nat :: i in PlanesAfter(on, cmds) <==> DrawPlane(inp, on, c, i)) &&
    (forall k, i: nat :: 0 <= k < c ==> (i in draws[k] <==> DrawPlane(inp, on, k, i)))
  }

  lemma {:induction false} LoopInit(inp: SectionInput, on: set<nat>)
    ensures var s := Section(inp, 0, false);
      LoopInv(inp, on, [], s, s.pass, s.pushed, s.cmds)
  {
    var s := Section(inp, 0, false);
    if ConcaveActive(inp) {
      ConcaveStep(inp, 0, false, on);
      if inp.kind == Triangle {
        assert Range(0, 1) == [0] + Range(1, 1);
      }
    } else if TriFillActive(inp) {
      ConvexFirst(inp, false, on);
    } else {
      PlainOnce(inp, false);
      assert PlanesAfter(on, s.cmds) == on;
    }
  }

  lemma {:induction false} LoopStep(inp: SectionInput, on: set<nat>, draws: seq<set<nat>>, s: SectionStep,
                 pass: nat, pushed: bool, cmds: seq<GLCmd>)
    requires LoopInv(inp, on, draws, s, pass, pushed, cmds) && s.more
    ensures var s' := Section(inp, pass, pushed);
      LoopInv(inp, on, draws + [PlanesAfter(on, cmds)], s', s'.pass, s'.pushed, cmds + s'.cmds)
  {
    var s' := Section(inp, pass, pushed);
    FillsAppend(cmds, s'.cmds);
    if ConcaveActive(inp) && |draws| + 1 < inp.numclip {
      LoopStepConcave(inp, on, draws, s, pass, pushed, cmds);
    } else if ConcaveActive(inp) || TriFillActive(inp) {
      SectionPastEnd(inp, pass, pushed);
      assert cmds + s'.cmds == cmds;
    } else {
      PlainOnce(inp, pushed);
      assert cmds + s'.cmds == cmds;
    }
  }

  lemma {:induction false} LoopStepConcave(inp: SectionInput, on: set<nat>, draws: seq<set<nat>>, s: SectionStep,
                        pass: nat, pushed: bool, cmds: seq<GLCmd>)
    requires LoopInv(inp, on, draws, s, pass, pushed, cmds) && s.more
    requires ConcaveActive(inp) && |draws| + 1 < inp.numclip
    ensures var s' := Section(inp, pass, pushed);
      LoopInv(inp, on, draws + [PlanesAfter(on, cmds)], s', s'.pass, s'.pushed, cmds + s'.cmds)
  {
    var c := |draws|;
    var s' := Section(inp, pass, pushed);
    var n := inp.numclip;
    var p := PlanesAfter(on, cmds);
    assert pass == c + 1;
    ConcaveOnly(inp, on, c, p);
    ConcaveStep(inp, c + 1, pushed, p);
    PlanesAfterAppend(on, cmds, s'.cmds);
    FillsAppend(cmds, s'.cmds);
    if inp.kind == Triangle {
      RangeSnoc(0, c + 1);
    }
    ConcaveNext(inp, on, c, p, PlanesAfter(p, s'.cmds));
    DrawsSnoc(inp, on, draws, p);
  }

  lemma {:induction false} ConcaveOnly(inp: SectionInput, on: set<nat>, c: nat, p: set<nat>)
    requires ConcaveActive(inp)
    requires forall i: nat :: i in p <==> DrawPlane(inp, on, c, i)
    ensures Only(p, inp.numclip, c)
  {
    forall i | 0 <= i < inp.numclip ensures i in p <==> i == c {
      assert DrawPlane(inp, on, c, i) <==> i == c;
    }
  }

  lemma {:induction false} ConcaveNext(inp: SectionInput, on: set<nat>, c: nat, p: set<nat>, p': set<nat>)
    requires ConcaveActive(inp)
    requires forall i: nat :: i in p <==> DrawPlane(inp, on, c, i)
    requires Only(p', inp.numclip, c + 1)
    requires forall i: nat :: i >= inp.numclip ==> (i in p' <==> i in p)
    ensures forall i: nat :: i in p' <==> DrawPlane(inp, on, c + 1, i)
  {
    forall i: nat ensures i in p' <==> DrawPlane(inp, on, c + 1, i) {
      if i >= inp.numclip {
        assert i in p <==> DrawPlane(inp, on, c, i);
      }
    }
  }

  lemma {:induction false} DrawsSnoc(inp: SectionInput, on: set<nat>, draws: seq<set<nat>>, p: set<nat>)
    requires forall k, i: nat :: 0 <= k < |draws| ==> (i in draws[k] <==> DrawPlane(inp, on, k, i))
    requires forall i: nat :: i in p <==> DrawPlane(inp, on, |draws|, i)
    ensures forall k, i: nat :: 0 <= k < |draws| + 1 ==> (i in (draws + [p])[k] <==> DrawPlane(inp, on, k, i))
  {
    forall k, i: nat | 0 <= k < |draws| + 1 ensures i in (draws + [p])[k] <==> DrawPlane(inp, on, k, i) {
      if k < |draws| {
        assert (draws + [p])[k] == draws[k];
      }
    }
  }

  lemma {:induction false} LoopExit(inp: SectionInput, on: set<nat>, draws: seq<set<nat>>, s: SectionStep,
                 pass: nat, pushed: bool, cmds: seq<GLCmd>)
    requires LoopInv(inp, on, draws, s, pass, pushed, cmds) && !s.more
    ensures |draws| == Calls(inp)
    ensures Fills(cmds) == if inp.kind == Triangle && (ConcaveActive(inp) || TriFillActive(inp)) then Range(0, inp.numclip) else []
  {
  }

  // ---------------------------------------------------------------------
  // The methods

  method EmitSelectPlanes(n: nat, k: nat) returns (cmds: seq<GLCmd>)
    ensures cmds == SelectPlanes(n, k)
  {
    cmds := [];
    for i := 0 to n
      invariant cmds == SelectPlanes(i, k)
    {
      if i == k {
        cmds := cmds + [Enable(ClipPlane(i))];
      } else {
        cmds := cmds + [Disable(ClipPlane(i))];
      }
    }
  }

  method EmitEnableOthers(n: nat, k: nat) returns (cmds: seq<GLCmd>)
    ensures cmds == EnableOthers(n, k)
  {
    cmds := [];
    for i := 0 to n
      invariant cmds == EnableOthers(i, k)
    {
      if i != k {
        cmds := cmds + [Enable(ClipPlane(i))];
      }
    }
  }

  method EmitEnablePlanes(n: nat) returns (cmds: seq<GLCmd>)
    ensures cmds == EnablePlanes(n)
  {
    cmds := [];
    for i := 0 to n
      invariant cmds == EnablePlanes(i)
    {
      cmds := cmds + [Enable(ClipPlane(i))];
    }
  }

  method EmitDisableFromOne(n: nat) returns (cmds: seq<GLCmd>)
    ensures cmds == DisableFromOne(n)
  {
    cmds := [];
    if n <= 1 {
      return;
    }
    for i := 1 to n
      invariant cmds == DisableFromOne(i)
    {
      cmds := cmds + [Disable(ClipPlane(i))];
    }
  }

  method EmitStencilSetup(inp: SectionInput, curpass: nat, pushed: bool) returns (cmds: seq<GLCmd>)
    ensures cmds == StencilSetup(inp, curpass, pushed)
  {
    cmds := [];
    if !pushed {
      cmds := cmds + [PushAttrib];
    }
    if curpass == 0 && Concave(inp) {
      if inp.depthfunc != Less {
        cmds := cmds + [SetDepthFunc(Less)];
      }
      if inp.offsetFilled {
        cmds := cmds + [Disable(PolygonOffsetFill)];
      }
    }
    cmds := cmds + [Enable(StencilTest)];
  }

  /** The stencil pass and fill of one plane. */
  method EmitFill(inp: SectionInput, curpass: nat, pushed: bool) returns (cmds: seq<GLCmd>)
    ensures cmds == FillCmds(inp, curpass, pushed)
  {
    cmds := EmitStencilSetup(inp, curpass, pushed);
    var select := EmitSelectPlanes(inp.numclip, curpass);
    cmds := cmds + select + [StencilPass(curpass)];
    var others: seq<GLCmd> := [];
    if !Concave(inp) {
      others := EmitEnableOthers(inp.numclip, curpass);
    }
    cmds := cmds + others + [Disable(ClipPlane(curpass))];
    cmds := cmds + [CapFill(curpass), Disable(StencilTest)];
  }

  /** A concave pass of a line or point entry. */
  method EmitLine(inp: SectionInput, curpass: nat, pushed: bool) returns (cmds: seq<GLCmd>)
    ensures cmds == LineCmds(inp, curpass, pushed)
  {
    cmds := [];
    if !pushed {
      cmds := cmds + [PushAttrib];
    }
    if curpass == 0 {
      var off := EmitDisableFromOne(inp.numclip);
      cmds := cmds + off;
    } else {
      cmds := cmds + [Disable(ClipPlane(curpass - 1))];
    }
    cmds := cmds + [Enable(ClipPlane(curpass))];
  }

  /** `renderSection(action, entry, pass, pushed)`. */
  method RenderSection(inp: SectionInput, pass: nat, pushed: bool) returns (s: SectionStep)
    ensures s == Section(inp, pass, pushed)
    decreases if pass <= inp.numclip then inp.numclip - pass else 0
  {
    var curpass := pass;
    var concave := inp.sectionConcave && inp.numclip > 1;
    if inp.depthwriteonly || curpass >= inp.numclip || inp.partidx >= 0 || (!inp.sectionFill && !concave) {
      return SectionStep(curpass == 0, curpass + 1, pushed, []);
    }
    if inp.kind != Triangle {
      if !concave {
        return SectionStep(curpass == 0, curpass + 1, pushed, []);
      }
      var cmds := EmitLine(inp, curpass, pushed);
      return SectionStep(true, curpass + 1, true, cmds);
    }
    var fill := EmitFill(inp, curpass, pushed);
    if !concave {
      var rest := RenderSection(inp, curpass + 1, true);
      var on: seq<GLCmd> := [];
      if curpass == 0 {
        on := EmitEnablePlanes(inp.numclip);
      }
      return SectionStep(true, rest.pass, rest.pushed, fill + rest.cmds + on);
    }
    var select := EmitSelectPlanes(inp.numclip, curpass);
    return SectionStep(true, curpass + 1, true, fill + select);
  }

  /** The drawing loop `while (renderSection(...))` of one entry, recording the enabled planes at each draw. */
  method SectionPasses(inp: SectionInput, on: set<nat>) returns (draws: seq<set<nat>>, cmds: seq<GLCmd>, pushed: bool)
    ensures |draws| == Calls(inp)
    ensures forall k, i: nat :: 0 <= k < |draws| ==> (i in draws[k] <==> DrawPlane(inp, on, k, i))
    ensures Fills(cmds) == if inp.kind == Triangle && (ConcaveActive(inp) || TriFillActive(inp)) then Range(0, inp.numclip) else []
    ensures pushed == (ConcaveActive(inp) || TriFillActive(inp))
  {
    draws := [];
    LoopInit(inp, on);
    var s := RenderSection(inp, 0, false);
    var pass := s.pass;
    pushed := s.pushed;
    cmds := s.cmds;
    while s.more
      invariant LoopInv(inp, on, draws, s, pass, pushed, cmds)
      decreases Calls(inp) - |draws|
    {
      LoopStep(inp, on, draws, s, pass, pushed, cmds);
      draws := draws + [PlanesAfter(on, cmds)];
      s := RenderSection(inp, pass, pushed);
      pass := s.pass;
      pushed := s.pushed;
      cmds := cmds + s.cmds;
    }
    LoopExit(inp, on, draws, s, pass, pushed, cmds);
  }
}
