/**
 * The in-memory parameter tree of src/Base/Parameter.cpp, as values.
 *
 * The source keeps each group's parameters as typed XML elements below the
 * group's element ("FCBool", "FCInt", "FCUInt", "FCFloat", "FCText", each with
 * a Name attribute) and its sub-groups both as "FCParamGroup" elements and
 * as handles in `_GroupMap`. Here a group's parameters are the ordered list
 * of its elements, and the groups of one manager form an arena: a group
 * handle is an index, group 0 is the manager itself, and a group records the
 * handle of its parent. Sub-groups are the groups whose parent is that
 * handle, so `_GroupMap` and the group elements are one relation.
 *
 * The functions here are what the operations compute; the class in
 * parameters.dfy applies them to its state.
 */
module ParamTree {
  import opened Wrappers
  import opened ParamValues

  datatype Kind = BoolKind | IntKind | UIntKind | FloatKind | TextKind

  /** The element type name of a kind, as the change signal reports it. */
  function TypeName(k: Kind): string
  {
    match k
    case BoolKind => "FCBool"
    case IntKind => "FCInt"
    case UIntKind => "FCUInt"
    case FloatKind => "FCFloat"
    case TextKind => "FCText"
  }

  const GroupType: string := "FCParamGroup"

  /**
   * One parameter element. For the attribute kinds `value` is the Value
   * attribute (`None` when the element has none, which reads as ""); for
   * "FCText" it is the text child (`None` when the element has no text node).
   */
  datatype Entry = Entry(kind: Kind, name: string, value: Option<string>)

  /** A parameter value as a getter returns it and a setter takes it. */
  datatype Value = TextVal(text: string) | BoolVal(b: bool) | IntVal(i: int) | UIntVal(u: nat)

  /**
   * One group handle: its name, its parent handle (`None` for the manager,
   * for a group removed from its parent and for a stand-in group), whether
   * it reports changes to a manager, whether it has an XML element (a group
   * without one is an orphan), and its parameter elements in document order.
   */
  datatype Group = Group(name: string, parent: Option<nat>, managed: bool, hasNode: bool, entries: seq<Entry>)

  // ---------------------------------------------------------------------
  // Parameter elements

  predicate Key(e: Entry, k: Kind, n: string)
  {
    e.kind == k && e.name == n
  }

  /** No two elements of a group share a type and a name. */
  predicate UniqueKeys(es: seq<Entry>)
  {
    forall i, j :: 0 <= i < j < |es| ==> !Key(es[j], es[i].kind, es[i].name)
  }

  /** `FindElement(group, type, name)`: the first element of that type and name. */
  function Find(es: seq<Entry>, k: Kind, n: string): (r: Option<nat>)
    ensures r.Some? ==> r.value < |es| && Key(es[r.value], k, n)
    ensures r.Some? ==> forall j :: 0 <= j < r.value ==> !Key(es[j], k, n)
    ensures r.None? ==> forall j :: 0 <= j < |es| ==> !Key(es[j], k, n)
  {
    if |es| == 0 then None
    else if Key(es[0], k, n) then Some(0)
    else
      match Find(es[1..], k, n)
      case None => None
      case Some(i) => Some(i + 1)
  }

  /** `Find` is determined by where the first match is. */
  lemma {:induction false} FindIs(es: seq<Entry>, k: Kind, n: string, r: Option<nat>)
    requires r.Some? ==> r.value < |es| && Key(es[r.value], k, n)
    requires forall j :: 0 <= j < |es| && (r.None? || j < r.value) ==> !Key(es[j], k, n)
    ensures Find(es, k, n) == r
  {
  }

  function Lookup(es: seq<Entry>, k: Kind, n: string): Option<Entry>
  {
    match Find(es, k, n)
    case None => None
    case Some(i) => Some(es[i])
  }

  /** The Value attribute as `getAttribute` returns it. */
  function AttrText(v: Option<string>): string
  {
    if v.Some? then v.value else ""
  }

  /**
   * How the getters read an element: "FCBool" is true exactly for "1",
   * "FCInt" is read by `atol`, "FCUInt" by `strtoul`, "FCText" is its text
   * when it has a text node. Floating-point values are not modelled.
   */
  function Decode(e: Entry): (r: Option<Value>)
    ensures r.Some? ==> KindOf(r.value) == e.kind
  {
    match e.kind
    case TextKind => if e.value.Some? then Some(TextVal(e.value.value)) else None
    case BoolKind => Some(BoolVal(DecodeBool(AttrText(e.value))))
    case IntKind => Some(IntVal(ParseLong(AttrText(e.value))))
    case UIntKind => Some(UIntVal(ParseULong(AttrText(e.value))))
    case FloatKind => None
  }

  /** The value of parameter `n` of kind `k`, when the group has one. */
  function Read(es: seq<Entry>, k: Kind, n: string): Option<Value>
  {
    match Lookup(es, k, n)
    case None => None
    case Some(e) => Decode(e)
  }

  function KindOf(v: Value): Kind
  {
    match v
    case TextVal(_) => TextKind
    case BoolVal(_) => BoolKind
    case IntVal(_) => IntKind
    case UIntVal(_) => UIntKind
  }

  /** The value fits the C++ type its setter takes. */
  predicate InRange(v: Value)
  {
    match v
    case IntVal(i) => InLong(i)
    case UIntVal(u) => InULong(u)
    case _ => true
  }

  /** The text a setter stores for a value. */
  function Encode(v: Value): string
  {
    match v
    case TextVal(t) => t
    case BoolVal(b) => EncodeBool(b)
    case IntVal(i) => FormatLong(i)
    case UIntVal(u) => FormatULong(u)
  }

  /** Every value a setter stores reads back as itself. */
  lemma {:induction false} DecodeEncode(v: Value, n: string)
    requires InRange(v)
    ensures Decode(Entry(KindOf(v), n, Some(Encode(v)))) == Some(v)
  {
    match v
    case TextVal(_) =>
    case BoolVal(b) => DecodeEncodeBool(b);
    case IntVal(i) => ParseFormatLong(i);
    case UIntVal(u) => ParseFormatULong(u);
  }

  /** Every value a getter reads fits its C++ type. */
  lemma {:induction false} DecodeInRange(e: Entry)
    ensures Decode(e).Some? ==> InRange(Decode(e).value)
  {
  }

  /** `GetBool(name, preset)` on a group that has an element. */
  function GetBool(es: seq<Entry>, n: string, preset: bool): bool
  {
    match Read(es, BoolKind, n)
    case Some(BoolVal(b)) => b
    case _ => preset
  }

  /** `GetInt(name, preset)`. */
  function GetInt(es: seq<Entry>, n: string, preset: int): int
  {
    match Read(es, IntKind, n)
    case Some(IntVal(i)) => i
    case _ => preset
  }

  /** `GetUnsigned(name, preset)`. */
  function GetUnsigned(es: seq<Entry>, n: string, preset: nat): nat
  {
    match Read(es, UIntKind, n)
    case Some(UIntVal(u)) => u
    case _ => preset
  }

  /** `GetASCII(name, preset)`; a null preset reads as "". */
  function GetASCII(es: seq<Entry>, n: string, preset: string): string
  {
    match Read(es, TextKind, n)
    case Some(TextVal(t)) => t
    case _ => preset
  }

  /**
   * What `_SetAttribute` does to the elements: find or create the element,
   * then write the Value attribute when it differs from the new text.
   */
  function Assign(es: seq<Entry>, k: Kind, n: string, v: string): seq<Entry>
  {
    match Find(es, k, n)
    case None => es + [Entry(k, n, if v == "" then None else Some(v))]
    case Some(i) => if AttrText(es[i].value) == v then es else es[i := Entry(k, n, Some(v))]
  }

  /** Whether `_SetAttribute` fires the change signal: the stored text differs. */
  predicate AttrChanges(es: seq<Entry>, k: Kind, n: string, v: string)
  {
    match Lookup(es, k, n)
    case None => v != ""
    case Some(e) => AttrText(e.value) != v
  }

  /** What `SetASCII` does to the elements: find or create, then set the text. */
  function AssignText(es: seq<Entry>, n: string, v: string): seq<Entry>
  {
    match Find(es, TextKind, n)
    case None => es + [Entry(TextKind, n, Some(v))]
    case Some(i) => if es[i].value == Some(v) then es else es[i := Entry(TextKind, n, Some(v))]
  }

  /**
   * Whether `SetASCII` fires the change signal: for a new element always, for
   * an element without text when the text is not empty, otherwise when the
   * text differs.
   */
  predicate TextChanges(es: seq<Entry>, n: string, v: string)
  {
    match Lookup(es, TextKind, n)
    case None => true
    case Some(e) => if e.value.None? then v != "" else e.value.value != v
  }

  /** The setter of a kind, applied to the elements. */
  function Store(es: seq<Entry>, k: Kind, n: string, v: string): seq<Entry>
  {
    if k == TextKind then AssignText(es, n, v) else Assign(es, k, n, v)
  }

  /** `Remove<Kind>(name)`: the first element of that type and name goes. */
  function RemoveEntry(es: seq<Entry>, k: Kind, n: string): seq<Entry>
  {
    match Find(es, k, n)
    case None => es
    case Some(i) => es[..i] + es[i + 1..]
  }

  /** With unique keys, an element is found exactly by its own key. */
  lemma {:induction false} LookupMember(es: seq<Entry>, e: Entry)
    requires UniqueKeys(es)
    ensures e in es <==> Lookup(es, e.kind, e.name) == Some(e)
  {
    if e in es {
      var i :| 0 <= i < |es| && es[i] == e;
      FindIs(es, e.kind, e.name, Some(i));
    }
  }

  /** Overwriting an element with one of the same type and name. */
  lemma {:induction false} FindSet(es: seq<Entry>, i: nat, x: Entry, k: Kind, n: string)
    requires UniqueKeys(es) && i < |es| && Key(x, es[i].kind, es[i].name)
    ensures UniqueKeys(es[i := x])
    ensures Find(es[i := x], k, n) == Find(es, k, n)
    ensures !Key(x, k, n) ==> Lookup(es[i := x], k, n) == Lookup(es, k, n)
  {
    FindIs(es[i := x], k, n, Find(es, k, n));
  }

  /** Appending an element whose type and name are new. */
  lemma {:induction false} FindAppend(es: seq<Entry>, x: Entry, k: Kind, n: string)
    requires UniqueKeys(es) && Find(es, x.kind, x.name).None?
    ensures UniqueKeys(es + [x])
    ensures Lookup(es + [x], k, n) == if Key(x, k, n) then Some(x) else Lookup(es, k, n)
  {
    var t := es + [x];
    assert forall j :: 0 <= j < |es| ==> t[j] == es[j];
    if Key(x, k, n) {
      FindIs(t, k, n, Some(|es|));
    } else {
      FindIs(t, k, n, Find(es, k, n));
    }
  }

  /** Deleting element `i`. */
  lemma {:induction false} FindRemove(es: seq<Entry>, i: nat, k: Kind, n: string)
    requires UniqueKeys(es) && i < |es|
    ensures UniqueKeys(es[..i] + es[i + 1..])
    ensures Lookup(es[..i] + es[i + 1..], k, n) == if Key(es[i], k, n) then None else Lookup(es, k, n)
  {
    var r := es[..i] + es[i + 1..];
    RemovedAt(es, i);
    if Key(es[i], k, n) {
      FindIs(r, k, n, None);
    } else {
      var f := Find(es, k, n);
      if f.None? {
        FindIs(r, k, n, None);
      } else if f.value < i {
        FindIs(r, k, n, f);
      } else {
        FindIs(r, k, n, Some(f.value - 1));
      }
    }
  }

  /** The elements after deleting element `i`, position by position. */
  lemma {:induction false} RemovedAt(es: seq<Entry>, i: nat)
    requires UniqueKeys(es) && i < |es|
    ensures |es[..i] + es[i + 1..]| == |es| - 1
    ensures forall j :: 0 <= j < i ==> (es[..i] + es[i + 1..])[j] == es[j]
    ensures forall j :: i < j < |es| ==> (es[..i] + es[i + 1..])[j - 1] == es[j]
    ensures UniqueKeys(es[..i] + es[i + 1..])
  {
    var r := es[..i] + es[i + 1..];
    assert forall j :: 0 <= j < i ==> r[j] == es[j];
    assert forall j :: i <= j < |r| ==> r[j] == es[j + 1];
  }

  /**
   * A setter makes its parameter hold the text it stored and leaves every
   * other parameter as it was.
   */
  lemma {:induction false} StoreLookup(es: seq<Entry>, k: Kind, n: string, v: string, k2: Kind, n2: string)
    requires UniqueKeys(es)
    ensures UniqueKeys(Store(es, k, n, v))
    ensures Lookup(Store(es, k, n, v), k, n).Some?
    ensures var e := Lookup(Store(es, k, n, v), k, n).value;
      Key(e, k, n) && if k == TextKind then e.value == Some(v) else AttrText(e.value) == v
    ensures !(k2 == k && n2 == n) ==> Lookup(Store(es, k, n, v), k2, n2) == Lookup(es, k2, n2)
  {
    var r := Store(es, k, n, v);
    match Find(es, k, n)
    case None =>
      var x := r[|es|];
      assert r == es + [x];
      FindAppend(es, x, k, n);
      FindAppend(es, x, k2, n2);
    case Some(i) =>
      if r != es {
        assert r == es[i := r[i]];
        FindSet(es, i, r[i], k, n);
        FindSet(es, i, r[i], k2, n2);
        FindIs(r, k, n, Some(i));
      }
  }

  /** A setter makes its parameter read as the value it stored. */
  lemma {:induction false} StoreRead(es: seq<Entry>, k: Kind, n: string, v: string)
    requires UniqueKeys(es)
    ensures Read(Store(es, k, n, v), k, n) == Decode(Entry(k, n, Some(v)))
  {
    StoreLookup(es, k, n, v, k, n);
  }

  /** Removing a parameter makes it absent and leaves the others. */
  lemma {:induction false} RemoveLookup(es: seq<Entry>, k: Kind, n: string, k2: Kind, n2: string)
    requires UniqueKeys(es)
    ensures UniqueKeys(RemoveEntry(es, k, n))
    ensures Lookup(RemoveEntry(es, k, n), k, n) == None
    ensures !(k2 == k && n2 == n) ==> Lookup(RemoveEntry(es, k, n), k2, n2) == Lookup(es, k2, n2)
  {
    match Find(es, k, n)
    case None =>
    case Some(i) =>
      FindRemove(es, i, k, n);
      FindRemove(es, i, k2, n2);
  }

  /** Removing keeps exactly the elements of other types or names. */
  lemma {:induction false} RemoveMembers(es: seq<Entry>, k: Kind, n: string, e: Entry)
    requires UniqueKeys(es)
    ensures e in RemoveEntry(es, k, n) <==> e in es && !Key(e, k, n)
  {
    match Find(es, k, n)
    case None =>
    case Some(i) =>
      var r := RemoveEntry(es, k, n);
      assert es == es[..i] + [es[i]] + es[i + 1..];
      if e in es && !Key(e, k, n) {
        assert e != es[i];
      }
      if e in r {
        assert e in es[..i] || e in es[i + 1..];
        LookupMember(es, e);
        LookupMember(es, es[i]);
      }
  }

  /** `GetBool` after `SetBool(b)` reads `b`. */
  lemma {:induction false} SetBoolGetBool(es: seq<Entry>, n: string, b: bool, preset: bool)
    requires UniqueKeys(es)
    ensures GetBool(Store(es, BoolKind, n, EncodeBool(b)), n, preset) == b
  {
    StoreRead(es, BoolKind, n, EncodeBool(b));
    DecodeEncode(BoolVal(b), n);
  }

  /** `GetInt` after `SetInt(i)` reads `i`. */
  lemma {:induction false} SetIntGetInt(es: seq<Entry>, n: string, i: int, preset: int)
    requires UniqueKeys(es) && InLong(i)
    ensures GetInt(Store(es, IntKind, n, FormatLong(i)), n, preset) == i
  {
    StoreRead(es, IntKind, n, FormatLong(i));
    DecodeEncode(IntVal(i), n);
  }

  /** `GetUnsigned` after `SetUnsigned(u)` reads `u`. */
  lemma {:induction false} SetUnsignedGetUnsigned(es: seq<Entry>, n: string, u: nat, preset: nat)
    requires UniqueKeys(es) && InULong(u)
    ensures GetUnsigned(Store(es, UIntKind, n, FormatULong(u)), n, preset) == u
  {
    StoreRead(es, UIntKind, n, FormatULong(u));
    DecodeEncode(UIntVal(u), n);
  }

  /** `GetASCII` after `SetASCII(t)` reads `t`. */
  lemma {:induction false} SetASCIIGetASCII(es: seq<Entry>, n: string, t: string, preset: string)
    requires UniqueKeys(es)
    ensures GetASCII(Store(es, TextKind, n, t), n, preset) == t
  {
    StoreRead(es, TextKind, n, t);
  }

  /** A removed parameter reads as the preset again. */
  lemma {:induction false} RemoveGetsPreset(es: seq<Entry>, n: string, preset: bool)
    requires UniqueKeys(es)
    ensures GetBool(RemoveEntry(es, BoolKind, n), n, preset) == preset
  {
    RemoveLookup(es, BoolKind, n, BoolKind, n);
  }

  /**
   * Setting a parameter to the value it already holds changes nothing and
   * fires no change signal.
   */
  lemma {:induction false} SecondSetSilent(es: seq<Entry>, k: Kind, n: string, v: string)
    requires UniqueKeys(es) && k != TextKind
    ensures !AttrChanges(Assign(es, k, n, v), k, n, v)
    ensures Assign(Assign(es, k, n, v), k, n, v) == Assign(es, k, n, v)
    ensures !TextChanges(AssignText(es, n, v), n, v)
    ensures AssignText(AssignText(es, n, v), n, v) == AssignText(es, n, v)
  {
    StoreLookup(es, k, n, v, k, n);
    StoreLookup(es, TextKind, n, v, TextKind, n);
  }

  // ---------------------------------------------------------------------
  // revert and insertTo, on the elements of one group

  /**
   * Whether an element `b` of the other group makes `revert` remove element
   * `e`: same type and name, `b` has a value, and `e` reads as that value
   * when `b`'s value is the preset.
   */
  predicate Reverts(b: Entry, e: Entry, k: Kind)
  {
    b.kind == k && Key(e, k, b.name) && Decode(b).Some? && (Decode(e).None? || Decode(e) == Decode(b))
  }

  /** One step of a `revert` loop: compare, then remove when equal. */
  function RevertOne(es: seq<Entry>, b: Entry, k: Kind): seq<Entry>
  {
    if b.kind == k && Decode(b).Some? then
      match Lookup(es, k, b.name)
      case Some(e) => if Decode(e).None? || Decode(e) == Decode(b) then RemoveEntry(es, k, b.name) else es
      case None => es
    else es
  }

  /** The `revert` loop over the other group's elements of kind `k`. */
  function RevertFold(es: seq<Entry>, bs: seq<Entry>, k: Kind): seq<Entry>
  {
    if |bs| == 0 then es else RevertOne(RevertFold(es, bs[..|bs| - 1], k), bs[|bs| - 1], k)
  }

  /** The four `revert` loops, in the order of the source. */
  function RevertAll(es: seq<Entry>, bs: seq<Entry>): seq<Entry>
  {
    RevertFold(RevertFold(RevertFold(RevertFold(es, bs, TextKind), bs, BoolKind), bs, IntKind), bs, UIntKind)
  }

  /** `revert` keeps exactly the elements no element of the other group reverts. */
  /** One `revert` step removes exactly the element `b` reverts. */
  lemma {:induction false} RevertOneSpec(f: seq<Entry>, b: Entry, k: Kind, e: Entry)
    requires UniqueKeys(f)
    ensures UniqueKeys(RevertOne(f, b, k))
    ensures e in RevertOne(f, b, k) <==> e in f && !Reverts(b, e, k)
  {
    RemoveLookup(f, k, b.name, k, b.name);
    RemoveMembers(f, k, b.name, e);
    LookupMember(f, e);
  }

  lemma {:induction false} RevertFoldSpec(es: seq<Entry>, bs: seq<Entry>, k: Kind, e: Entry)
    requires UniqueKeys(es)
    ensures UniqueKeys(RevertFold(es, bs, k))
    ensures e in RevertFold(es, bs, k) <==> e in es && forall j :: 0 <= j < |bs| ==> !Reverts(bs[j], e, k)
  {
    if |bs| > 0 {
      var init := bs[..|bs| - 1];
      RevertFoldSpec(es, init, k, e);
      RevertOneSpec(RevertFold(es, init, k), bs[|bs| - 1], k, e);
      assert forall j :: 0 <= j < |init| ==> init[j] == bs[j];
    }
  }

  lemma {:induction false} RevertAllSpec(es: seq<Entry>, bs: seq<Entry>, e: Entry)
    requires UniqueKeys(es)
    ensures UniqueKeys(RevertAll(es, bs))
    ensures e in RevertAll(es, bs) <==> e in es && forall j, k :: 0 <= j < |bs| && k != FloatKind ==> !Reverts(bs[j], e, k)
  {
    var t := RevertFold(es, bs, TextKind);
    var b := RevertFold(t, bs, BoolKind);
    var i := RevertFold(b, bs, IntKind);
    RevertFoldSpec(es, bs, TextKind, e);
    RevertFoldSpec(t, bs, BoolKind, e);
    RevertFoldSpec(b, bs, IntKind, e);
    RevertFoldSpec(i, bs, UIntKind, e);
    forall j, k | 0 <= j < |bs| && k != FloatKind && Reverts(bs[j], e, k)
      ensures e !in RevertAll(es, bs)
    {
      assert k == TextKind || k == BoolKind || k == IntKind || k == UIntKind;
    }
  }

  /** One step of an `insertTo` loop: the destination's setter with the value read. */
  function CopyOne(es: seq<Entry>, src: Entry, k: Kind): seq<Entry>
  {
    if src.kind == k && Decode(src).Some? then Store(es, k, src.name, Encode(Decode(src).value)) else es
  }

  /** The `insertTo` loop over the source group's elements of kind `k`. */
  function CopyFold(es: seq<Entry>, srcs: seq<Entry>, k: Kind): seq<Entry>
  {
    if |srcs| == 0 then es else CopyOne(CopyFold(es, srcs[..|srcs| - 1], k), srcs[|srcs| - 1], k)
  }

  /** The destination reads every value the source has, kind for kind. */
  ghost predicate Mirrors(dst: seq<Entry>, src: seq<Entry>)
  {
    forall j :: 0 <= j < |src| && Decode(src[j]).Some? ==> Read(dst, src[j].kind, src[j].name) == Decode(src[j])
  }

  /** One `insertTo` step sets the parameter it copies and no other. */
  lemma {:induction false} CopyOneLookup(f: seq<Entry>, src: Entry, k: Kind, k2: Kind, n2: string)
    requires UniqueKeys(f)
    ensures UniqueKeys(CopyOne(f, src, k))
    ensures src.kind == k && Decode(src).Some? ==> Read(CopyOne(f, src, k), k, src.name) == Decode(src)
    ensures !(src.kind == k && Decode(src).Some? && Key(src, k2, n2)) ==>
              Lookup(CopyOne(f, src, k), k2, n2) == Lookup(f, k2, n2)
  {
    if src.kind == k && Decode(src).Some? {
      var v := Decode(src).value;
      DecodeInRange(src);
      DecodeEncode(v, src.name);
      StoreRead(f, k, src.name, Encode(v));
      StoreLookup(f, k, src.name, Encode(v), k2, n2);
    }
  }

  /** The loop of kind `k` leaves every parameter it does not copy as it was. */
  lemma {:induction false} CopyFoldFrame(es: seq<Entry>, srcs: seq<Entry>, k: Kind, k2: Kind, n2: string)
    requires UniqueKeys(es)
    ensures UniqueKeys(CopyFold(es, srcs, k))
    ensures (k2 != k || forall j :: 0 <= j < |srcs| ==> !Key(srcs[j], k, n2)) ==>
              Lookup(CopyFold(es, srcs, k), k2, n2) == Lookup(es, k2, n2)
  {
    if |srcs| > 0 {
      var init := srcs[..|srcs| - 1];
      assert forall j :: 0 <= j < |init| ==> init[j] == srcs[j];
      CopyFoldFrame(es, init, k, k2, n2);
      CopyOneLookup(CopyFold(es, init, k), srcs[|srcs| - 1], k, k2, n2);
    }
  }

  /** After the loop of kind `k` the destination reads each value it copied. */
  lemma {:induction false} CopyFoldReads(es: seq<Entry>, srcs: seq<Entry>, k: Kind, j: nat)
    requires UniqueKeys(es) && UniqueKeys(srcs)
    requires j < |srcs| && srcs[j].kind == k && Decode(srcs[j]).Some?
    ensures Read(CopyFold(es, srcs, k), k, srcs[j].name) == Decode(srcs[j])
  {
    var init := srcs[..|srcs| - 1];
    var f := CopyFold(es, init, k);
    CopyFoldFrame(es, init, k, k, "");
    if j == |srcs| - 1 {
      CopyOneLookup(f, srcs[j], k, k, srcs[j].name);
    } else {
      assert init[j] == srcs[j];
      assert UniqueKeys(init) by {
        assert forall i :: 0 <= i < |init| ==> init[i] == srcs[i];
      }
      CopyFoldReads(es, init, k, j);
      CopyOneLookup(f, srcs[|srcs| - 1], k, k, srcs[j].name);
    }
  }

  /** The four `insertTo` loops, in the order of the source (floats left out). */
  function CopyAll(es: seq<Entry>, srcs: seq<Entry>): seq<Entry>
  {
    CopyFold(CopyFold(CopyFold(CopyFold(es, srcs, TextKind), srcs, BoolKind), srcs, IntKind), srcs, UIntKind)
  }

  /** A copy loop only sets: every parameter stays present. */
  lemma {:induction false} CopyFoldKeeps(es: seq<Entry>, srcs: seq<Entry>, k: Kind, k2: Kind, n2: string)
    requires UniqueKeys(es) && Lookup(es, k2, n2).Some?
    ensures UniqueKeys(CopyFold(es, srcs, k)) && Lookup(CopyFold(es, srcs, k), k2, n2).Some?
  {
    if |srcs| > 0 {
      var init := srcs[..|srcs| - 1];
      CopyFoldKeeps(es, init, k, k2, n2);
      var f := CopyFold(es, init, k);
      var src := srcs[|srcs| - 1];
      CopyOneLookup(f, src, k, k2, n2);
      if src.kind == k && Decode(src).Some? {
        StoreLookup(f, k, src.name, Encode(Decode(src).value), k2, n2);
      }
    }
  }

  /**
   * `insertTo` only sets: no parameter of the destination goes, and one
   * the source has no element for keeps its value.
   */
  lemma {:induction false} CopyAllKeeps(es: seq<Entry>, srcs: seq<Entry>, k2: Kind, n2: string)
    requires UniqueKeys(es)
    ensures Lookup(es, k2, n2).Some? ==> Lookup(CopyAll(es, srcs), k2, n2).Some?
    ensures (forall j :: 0 <= j < |srcs| ==> !Key(srcs[j], k2, n2)) ==>
              Lookup(CopyAll(es, srcs), k2, n2) == Lookup(es, k2, n2)
  {
    var t := CopyFold(es, srcs, TextKind);
    var b := CopyFold(t, srcs, BoolKind);
    var i := CopyFold(b, srcs, IntKind);
    CopyFoldFrame(es, srcs, TextKind, k2, n2);
    CopyFoldFrame(t, srcs, BoolKind, k2, n2);
    CopyFoldFrame(b, srcs, IntKind, k2, n2);
    CopyFoldFrame(i, srcs, UIntKind, k2, n2);
    if Lookup(es, k2, n2).Some? {
      CopyFoldKeeps(es, srcs, TextKind, k2, n2);
      CopyFoldKeeps(t, srcs, BoolKind, k2, n2);
      CopyFoldKeeps(b, srcs, IntKind, k2, n2);
      CopyFoldKeeps(i, srcs, UIntKind, k2, n2);
    }
  }

  /** After the copy loops the destination reads every value of the source. */
  lemma {:induction false} CopyAllMirrors(es: seq<Entry>, srcs: seq<Entry>)
    requires UniqueKeys(es) && UniqueKeys(srcs)
    ensures UniqueKeys(CopyAll(es, srcs))
    ensures Mirrors(CopyAll(es, srcs), srcs)
  {
    var t := CopyFold(es, srcs, TextKind);
    var b := CopyFold(t, srcs, BoolKind);
    var i := CopyFold(b, srcs, IntKind);
    var u := CopyFold(i, srcs, UIntKind);
    CopyFoldFrame(es, srcs, TextKind, TextKind, "");
    CopyFoldFrame(t, srcs, BoolKind, BoolKind, "");
    CopyFoldFrame(b, srcs, IntKind, IntKind, "");
    CopyFoldFrame(i, srcs, UIntKind, UIntKind, "");
    forall j | 0 <= j < |srcs| && Decode(srcs[j]).Some?
      ensures Read(u, srcs[j].kind, srcs[j].name) == Decode(srcs[j])
    {
      var k := srcs[j].kind;
      var n := srcs[j].name;
      if k == TextKind {
        CopyFoldReads(es, srcs, k, j);
        CopyFoldFrame(t, srcs, BoolKind, k, n);
        CopyFoldFrame(b, srcs, IntKind, k, n);
        CopyFoldFrame(i, srcs, UIntKind, k, n);
      } else if k == BoolKind {
        CopyFoldReads(t, srcs, k, j);
        CopyFoldFrame(b, srcs, IntKind, k, n);
        CopyFoldFrame(i, srcs, UIntKind, k, n);
      } else if k == IntKind {
        CopyFoldReads(b, srcs, k, j);
        CopyFoldFrame(i, srcs, UIntKind, k, n);
      } else {
        CopyFoldReads(i, srcs, k, j);
      }
    }
  }

  // ---------------------------------------------------------------------
  // The group arena

  ghost predicate ParentsBelow(s: seq<Group>)
  {
    forall g :: 0 <= g < |s| && s[g].parent.Some? ==> s[g].parent.value < g
  }

  /**
   * What every operation keeps: the manager is group 0; a parent comes
   * before its children and has an element; sub-groups of one group have
   * distinct names; no group has two elements of the same type and name.
   */
  ghost predicate ValidArena(s: seq<Group>)
  {
    && |s| > 0 && s[0].parent.None? && s[0].hasNode
    && ParentsBelow(s)
    && (forall g :: 0 <= g < |s| && s[g].parent.Some? ==> s[g].hasNode && s[s[g].parent.value].hasNode)
    && (forall a, b :: 0 <= a < b < |s| && s[a].parent.Some? && s[b].parent == s[a].parent ==> s[a].name != s[b].name)
    && (forall g :: 0 <= g < |s| ==> UniqueKeys(s[g].entries))
  }

  /** Replacing a group's elements by elements with unique keys keeps the arena valid. */
  lemma {:induction false} EntriesValid(s: seq<Group>, h: nat, es: seq<Entry>)
    requires ValidArena(s) && h < |s| && UniqueKeys(es)
    ensures ValidArena(s[h := s[h].(entries := es)])
  {
  }

  /** A new sub-group, under a name no sibling has, keeps the arena valid. */
  lemma {:induction false} AddChildValid(s: seq<Group>, p: nat, n: string, managed: bool)
    requires ValidArena(s) && p < |s| && s[p].hasNode && FindChild(s, p, n).None?
    ensures ValidArena(s + [Group(n, Some(p), managed, true, [])])
  {
    var t := s + [Group(n, Some(p), managed, true, [])];
    assert forall g :: 0 <= g < |s| ==> t[g] == s[g];
    forall a | 0 <= a < |s| && t[a].parent == Some(p) ensures t[a].name != n {
      assert !IsChild(s, a, p, n);
    }
  }

  /** A stand-in group without element or parent keeps the arena valid. */
  lemma {:induction false} AddOrphanValid(s: seq<Group>, n: string)
    requires ValidArena(s)
    ensures ValidArena(s + [Group(n, None, false, false, [])])
  {
    var t := s + [Group(n, None, false, false, [])];
    assert forall g :: 0 <= g < |s| ==> t[g] == s[g];
  }

  predicate IsChild(s: seq<Group>, c: nat, p: nat, n: string)
    requires c < |s|
  {
    s[c].parent == Some(p) && s[c].name == n
  }

  function FindChildFrom(s: seq<Group>, p: nat, n: string, lo: nat): (r: Option<nat>)
    ensures r.Some? ==> lo <= r.value < |s| && IsChild(s, r.value, p, n)
    ensures r.None? ==> forall c :: lo <= c < |s| ==> !IsChild(s, c, p, n)
    decreases |s| - lo
  {
    if lo >= |s| then None
    else if IsChild(s, lo, p, n) then Some(lo)
    else FindChildFrom(s, p, n, lo + 1)
  }

  /** The `_GroupMap` lookup: the sub-group of `p` named `n`. */
  function FindChild(s: seq<Group>, p: nat, n: string): (r: Option<nat>)
    ensures r.Some? ==> r.value < |s| && IsChild(s, r.value, p, n)
    ensures r.None? ==> forall c :: 0 <= c < |s| ==> !IsChild(s, c, p, n)
  {
    FindChildFrom(s, p, n, 0)
  }

  /** Sibling names are unique, so a sub-group is found by its name. */
  lemma {:induction false} FindChildIs(s: seq<Group>, p: nat, c: nat)
    requires ValidArena(s) && c < |s| && s[c].parent == Some(p)
    ensures FindChild(s, p, s[c].name) == Some(c)
  {
    assert IsChild(s, c, p, s[c].name);
    var f := FindChild(s, p, s[c].name);
  }

  function ChildrenFrom(s: seq<Group>, p: nat, lo: nat): (r: seq<nat>)
    ensures forall c :: c in r <==> lo <= c < |s| && s[c].parent == Some(p)
    decreases |s| - lo
  {
    if lo >= |s| then [] else (if s[lo].parent == Some(p) then [lo] else []) + ChildrenFrom(s, p, lo + 1)
  }

  /** `GetGroups()`: the sub-groups of `p`, oldest first. */
  function Children(s: seq<Group>, p: nat): (r: seq<nat>)
    ensures forall c :: c in r <==> 0 <= c < |s| && s[c].parent == Some(p)
  {
    ChildrenFrom(s, p, 0)
  }

  /**
   * `GetPath()`: the names from below the manager down to `h`, joined
   * with '/'.
   */
  function PathOf(s: seq<Group>, h: nat): string
    requires ParentsBelow(s) && h < |s|
    decreases h
  {
    var up := if s[h].parent.Some? && s[h].parent.value != 0 then PathOf(s, s[h].parent.value) else "";
    JoinName(up, s[h].name)
  }

  /** `r` is reached from `a` by walking down the sub-groups named `toks`. */
  ghost predicate Descends(s: seq<Group>, a: nat, r: nat, toks: seq<string>)
    requires ParentsBelow(s) && r < |s|
    decreases |toks|
  {
    if |toks| == 0 then r == a
    else (s[r].parent.Some? && s[r].name == toks[|toks| - 1]
      && Descends(s, a, s[r].parent.value, toks[..|toks| - 1]))
  }

  /** The group a path names below `a`, when all of it exists. */
  ghost function Resolve(s: seq<Group>, a: nat, toks: seq<string>): (r: Option<nat>)
    requires ValidArena(s) && a < |s|
    ensures r.Some? ==> r.value < |s| && Descends(s, a, r.value, toks)
    decreases |toks|
  {
    if |toks| == 0 then Some(a)
    else
      match Resolve(s, a, toks[..|toks| - 1])
      case None => None
      case Some(p) => FindChild(s, p, toks[|toks| - 1])
  }

  /** Every group a path names is found by `Resolve`. */
  lemma {:induction false} ResolveComplete(s: seq<Group>, a: nat, x: nat, toks: seq<string>)
    requires ValidArena(s) && a < |s| && x < |s| && Descends(s, a, x, toks)
    ensures Resolve(s, a, toks) == Some(x)
    decreases |toks|
  {
    if |toks| > 0 {
      var p := s[x].parent.value;
      ResolveComplete(s, a, p, toks[..|toks| - 1]);
      FindChildIs(s, p, x);
    }
  }

  /** Only a group with an element has sub-groups to walk into. */
  lemma {:induction false} DescendsFromNode(s: seq<Group>, a: nat, r: nat, toks: seq<string>)
    requires ValidArena(s) && r < |s| && |toks| > 0 && Descends(s, a, r, toks)
    ensures a < |s| && s[a].hasNode
    decreases |toks|
  {
    var p := s[r].parent.value;
    if |toks| > 1 {
      DescendsFromNode(s, a, p, toks[..|toks| - 1]);
    }
  }

  /** A path names at most one group. */
  lemma {:induction false} DescendsUnique(s: seq<Group>, a: nat, r1: nat, r2: nat, toks: seq<string>)
    requires ValidArena(s) && r1 < |s| && r2 < |s|
    requires Descends(s, a, r1, toks) && Descends(s, a, r2, toks)
    ensures r1 == r2
    decreases |toks|
  {
    if |toks| > 0 {
      DescendsUnique(s, a, s[r1].parent.value, s[r2].parent.value, toks[..|toks| - 1]);
    }
  }

  /** Appending groups to the arena keeps every walk. */
  lemma {:induction false} DescendsGrow(s: seq<Group>, t: seq<Group>, a: nat, r: nat, toks: seq<string>)
    requires ParentsBelow(s) && ParentsBelow(t) && |s| <= |t| && t[..|s|] == s && r < |s|
    requires Descends(s, a, r, toks)
    ensures Descends(t, a, r, toks)
    decreases |toks|
  {
    if |toks| > 0 {
      assert t[r] == s[r];
      DescendsGrow(s, t, a, s[r].parent.value, toks[..|toks| - 1]);
    }
  }

  /** A walk one step longer goes through a walk of its prefix. */
  lemma {:induction false} DescendsStep(s: seq<Group>, a: nat, r: nat, c: nat, toks: seq<string>, i: nat)
    requires ParentsBelow(s) && r < |s| && c < |s| && i < |toks|
    requires Descends(s, a, r, toks[..i]) && IsChild(s, c, r, toks[i])
    ensures Descends(s, a, c, toks[..i + 1])
  {
    assert toks[..i + 1][..i] == toks[..i];
  }

  /** Every prefix of an existing walk ends at the parent chain of its end. */
  lemma {:induction false} DescendsPrefix(s: seq<Group>, a: nat, x: nat, toks: seq<string>, i: nat) returns (y: nat)
    requires ValidArena(s) && x < |s| && i < |toks| && Descends(s, a, x, toks)
    ensures y < |s| && Descends(s, a, y, toks[..i + 1])
    decreases |toks|
  {
    if i + 1 == |toks| {
      assert toks[..i + 1] == toks;
      y := x;
    } else {
      var init := toks[..|toks| - 1];
      assert init[..i + 1] == toks[..i + 1];
      y := DescendsPrefix(s, a, s[x].parent.value, init, i);
    }
  }

  /**
   * When the whole path is already there, every step of the walk finds an
   * existing sub-group under a group that has an element.
   */
  lemma {:induction false} DescendsNext(s: seq<Group>, a: nat, x: nat, r: nat, toks: seq<string>, i: nat)
    requires ValidArena(s) && x < |s| && r < |s| && i < |toks|
    requires Descends(s, a, x, toks) && Descends(s, a, r, toks[..i])
    ensures s[r].hasNode && FindChild(s, r, toks[i]).Some?
  {
    var y := DescendsPrefix(s, a, x, toks, i);
    assert toks[..i + 1][..i] == toks[..i];
    DescendsUnique(s, a, s[y].parent.value, r, toks[..i]);
    assert IsChild(s, y, r, toks[i]);
  }

  /** The names on the way from the manager's children down to `h`. */
  ghost predicate ReachesRoot(s: seq<Group>, h: nat)
    requires ParentsBelow(s) && h < |s|
    decreases h
  {
    s[h].parent.Some? && (s[h].parent.value == 0 || ReachesRoot(s, s[h].parent.value))
  }

  /** Every name on the way down to `h` survives tokenising. */
  ghost predicate PlainChain(s: seq<Group>, h: nat)
    requires ParentsBelow(s) && h < |s|
    decreases h
  {
    PlainName(s[h].name) && (s[h].parent.Some? && s[h].parent.value != 0 ==> PlainChain(s, s[h].parent.value))
  }

  /**
   * `GetGroup(GetPath())` from the manager finds the group again, when its
   * names are plain: the path `GetPath` builds walks down to the group.
   */
  lemma {:induction false} GetPathResolves(s: seq<Group>, h: nat)
    requires ValidArena(s) && h < |s| && ReachesRoot(s, h) && PlainChain(s, h)
    ensures Descends(s, 0, h, PathTokens(PathOf(s, h)))
    decreases h
  {
    var p := s[h].parent.value;
    var n := s[h].name;
    PlainNameTokens(n);
    if p == 0 {
      JoinNameTokens("", n);
      assert PathTokens("") == [] by { JoinNameTokens("", ""); }
      assert PathTokens(PathOf(s, h)) == [n];
      assert [n][..0] == [];
    } else {
      GetPathResolves(s, p);
      var up := PathTokens(PathOf(s, p));
      JoinNameTokens(PathOf(s, p), n);
      assert PathTokens(PathOf(s, h)) == up + [n];
      assert (up + [n])[..|up|] == up;
    }
  }

  // ---------------------------------------------------------------------
  // Clear

  /** `a` is a proper ancestor of `g`. */
  ghost predicate Anc(s: seq<Group>, a: nat, g: nat)
    requires ParentsBelow(s) && g < |s|
    decreases g
  {
    s[g].parent.Some? && (s[g].parent.value == a || Anc(s, a, s[g].parent.value))
  }

  /** The sub-group of `h` on the way down to its descendant `g`. */
  ghost function Top(s: seq<Group>, h: nat, g: nat): (r: nat)
    requires ParentsBelow(s) && g < |s| && Anc(s, h, g)
    ensures h < r <= g && s[r].parent == Some(h) && (r == g || Anc(s, r, g))
    decreases g
  {
    var p := s[g].parent.value;
    if p == h then g
    else
      var r := Top(s, h, p);
      assert Anc(s, r, g);
      r
  }

  /** A descendant of a sub-group `c` of `h` descends from `h` through `c`. */
  lemma {:induction false} TopOfChild(s: seq<Group>, h: nat, c: nat, g: nat)
    requires ParentsBelow(s) && c < |s| && g < |s| && s[c].parent == Some(h) && Anc(s, c, g)
    ensures Anc(s, h, g) && Top(s, h, g) == c
    decreases g
  {
    var p := s[g].parent.value;
    if p != c {
      TopOfChild(s, h, c, p);
    }
  }

  /** `g` is `a` or lies below it. */
  ghost predicate InTree(s: seq<Group>, a: nat, g: nat)
    requires ParentsBelow(s) && g < |s|
  {
    g == a || Anc(s, a, g)
  }

  /** An ancestor has a smaller handle. */
  lemma {:induction false} AncBelow(s: seq<Group>, a: nat, g: nat)
    requires ParentsBelow(s) && g < |s| && Anc(s, a, g)
    ensures a < g
    decreases g
  {
    var p := s[g].parent.value;
    if p != a {
      AncBelow(s, a, p);
    }
  }

  lemma {:induction false} AncTrans(s: seq<Group>, a: nat, b: nat, g: nat)
    requires ParentsBelow(s) && b < |s| && g < |s| && Anc(s, a, b) && Anc(s, b, g)
    ensures Anc(s, a, g)
    decreases g
  {
    var p := s[g].parent.value;
    if p != b {
      AncTrans(s, a, b, p);
    }
  }

  /** Ancestry, and the sub-group on the way, depend only on the parent links. */
  lemma {:induction false} AncKeeps(s: seq<Group>, t: seq<Group>, a: nat, g: nat)
    requires ParentsBelow(s) && ParentsBelow(t) && |s| <= |t| && g < |s|
    requires forall x :: 0 <= x < |s| ==> t[x].parent == s[x].parent
    ensures Anc(t, a, g) <==> Anc(s, a, g)
    ensures Anc(s, a, g) ==> Top(t, a, g) == Top(s, a, g)
    decreases g
  {
    if s[g].parent.Some? {
      AncKeeps(s, t, a, s[g].parent.value);
    }
  }

  /** A walk of at least one name ends strictly below where it started. */
  lemma {:induction false} DescendsAnc(s: seq<Group>, a: nat, r: nat, toks: seq<string>)
    requires ParentsBelow(s) && r < |s| && |toks| > 0 && Descends(s, a, r, toks)
    ensures Anc(s, a, r)
    decreases |toks|
  {
    var p := s[r].parent.value;
    if |toks| > 1 {
      DescendsAnc(s, a, p, toks[..|toks| - 1]);
    }
  }

  /** A group taken out of its parent's map: emptied, without parent or manager. */
  function Unlinked(g: Group): Group
  {
    g.(entries := [], parent := None, managed := false)
  }

  ghost function ClearedAt(s: seq<Group>, h: nat, c: nat, g: nat): Group
    requires ParentsBelow(s) && g < |s|
  {
    if Anc(s, h, g) && Top(s, h, g) < c then Unlinked(s[g]) else s[g]
  }

  /** The arena once `Clear` has handled the sub-groups of `h` below handle `c`. */
  ghost function ClearedBelow(s: seq<Group>, h: nat, c: nat): (t: seq<Group>)
    requires ParentsBelow(s)
    ensures |t| == |s| && forall g :: 0 <= g < |s| ==> t[g] == ClearedAt(s, h, c, g)
  {
    seq(|s|, g requires 0 <= g < |s| => ClearedAt(s, h, c, g))
  }

  /**
   * The arena after `Clear` on `h`: its elements are gone, and every group
   * below it is emptied and taken out of its parent.
   */
  ghost function Cleared(s: seq<Group>, h: nat): (t: seq<Group>)
    requires ParentsBelow(s) && h < |s|
    ensures |t| == |s|
    ensures t[h] == s[h].(entries := [])
    ensures forall g :: 0 <= g < |s| && g != h ==> t[g] == if Anc(s, h, g) then Unlinked(s[g]) else s[g]
  {
    seq(|s|, g requires 0 <= g < |s| => if g == h then s[h].(entries := []) else if Anc(s, h, g) then Unlinked(s[g]) else s[g])
  }

  /** Emptying and unlinking groups other than the manager keeps the arena valid. */
  lemma {:induction false} UnlinkValid(s: seq<Group>, t: seq<Group>)
    requires ValidArena(s) && |t| == |s| && t[0].parent.None? && t[0].hasNode
    requires forall g :: 0 <= g < |s| ==> t[g] == s[g] || t[g] == Unlinked(s[g]) || t[g] == s[g].(entries := [])
    ensures ValidArena(t)
  {
    forall g | 0 <= g < |t| && t[g].parent.Some?
      ensures t[g].parent == s[g].parent
    {
    }
    forall g | 0 <= g < |t| ensures UniqueKeys(t[g].entries) {
      assert t[g].entries == s[g].entries || t[g].entries == [];
    }
  }

  lemma {:induction false} ClearStart(s: seq<Group>, h: nat)
    requires ValidArena(s) && h < |s|
    ensures ClearedBelow(s, h, h + 1) == s
  {
  }

  lemma {:induction false} ClearedBelowValid(s: seq<Group>, h: nat, c: nat)
    requires ValidArena(s) && h < |s|
    ensures ValidArena(ClearedBelow(s, h, c))
  {
    var t := ClearedBelow(s, h, c);
    assert !Anc(s, h, 0);
    UnlinkValid(s, t);
  }

  /** Before `Clear` reaches handle `c`, that group is as it was. */
  lemma {:induction false} ClearedBelowAt(s: seq<Group>, h: nat, c: nat)
    requires ValidArena(s) && h < c < |s|
    ensures ClearedBelow(s, h, c)[c].parent == Some(h) <==> s[c].parent == Some(h)
  {
    if Anc(s, h, c) && Top(s, h, c) < c {
      assert s[c].parent != Some(h);
    }
  }

  /** Unlinking only removes parent links, so ancestry below an untouched `c` stays. */
  lemma {:induction false} AncStable(s: seq<Group>, t: seq<Group>, c: nat, g: nat)
    requires ParentsBelow(s) && ParentsBelow(t) && |t| == |s| && g < |s|
    requires forall x :: 0 <= x < |s| ==> t[x].parent == s[x].parent || t[x].parent.None?
    requires forall x :: 0 <= x < |s| && Anc(s, c, x) ==> t[x].parent == s[x].parent
    ensures Anc(t, c, g) <==> Anc(s, c, g)
    decreases g
  {
    if t[g].parent.Some? {
      assert t[g].parent == s[g].parent;
      AncStable(s, t, c, t[g].parent.value);
    } else if s[g].parent.Some? {
      assert !Anc(s, c, g);
    }
  }

  /** `Clear` on the sub-group `c` of `h`, then unlinking `c`, advances the loop. */
  lemma {:induction false} ClearChildStep(s: seq<Group>, h: nat, c: nat)
    requires ValidArena(s) && h < c < |s| && s[c].parent == Some(h)
    ensures ClearedBelow(s, h, c)[c] == s[c]
    ensures var cur := ClearedBelow(s, h, c);
      Cleared(cur, c)[c := Unlinked(cur[c])] == ClearedBelow(s, h, c + 1)
  {
    var cur := ClearedBelow(s, h, c);
    ClearedBelowValid(s, h, c);
    var after := Cleared(cur, c)[c := Unlinked(cur[c])];
    var next := ClearedBelow(s, h, c + 1);
    forall x | 0 <= x < |s| && Anc(s, c, x) ensures cur[x] == s[x] {
      TopOfChild(s, h, c, x);
    }
    forall g | 0 <= g < |s| ensures after[g] == next[g] {
      AncStable(s, cur, c, g);
      if g == c {
      } else if Anc(s, c, g) {
        TopOfChild(s, h, c, g);
      } else if Anc(s, h, g) && Top(s, h, g) == c {
        assert false;
      }
    }
  }

  lemma {:induction false} ClearSkipStep(s: seq<Group>, h: nat, c: nat)
    requires ValidArena(s) && h < c < |s| && s[c].parent != Some(h)
    ensures ClearedBelow(s, h, c + 1) == ClearedBelow(s, h, c)
  {
    var a := ClearedBelow(s, h, c + 1);
    var b := ClearedBelow(s, h, c);
    forall g | 0 <= g < |s| ensures a[g] == b[g] {
      if Anc(s, h, g) && Top(s, h, g) == c {
        assert false;
      }
    }
  }

  lemma {:induction false} ClearEnd(s: seq<Group>, h: nat)
    requires ValidArena(s) && h < |s|
    ensures ClearedBelow(s, h, |s|)[h := s[h].(entries := [])] == Cleared(s, h)
  {
  }

  /**
   * After `Clear` the group has no parameters and no sub-groups, and the
   * arena stays valid.
   */
  lemma {:induction false} ClearedEmpty(s: seq<Group>, h: nat)
    requires ValidArena(s) && h < |s|
    ensures ValidArena(Cleared(s, h))
    ensures |Cleared(s, h)[h].entries| == 0
    ensures Children(Cleared(s, h), h) == []
  {
    var t := Cleared(s, h);
    assert !Anc(s, h, 0);
    UnlinkValid(s, t);
    var cs := Children(t, h);
    if |cs| > 0 {
      assert cs[0] in cs;
      assert Anc(s, h, cs[0]);
    }
  }

  /** After `Clear` nothing lies below the cleared group any more. */
  lemma {:induction false} ClearedNoAnc(s: seq<Group>, h: nat, g: nat)
    requires ValidArena(s) && h < |s| && g < |s|
    ensures ParentsBelow(Cleared(s, h)) && !Anc(Cleared(s, h), h, g)
    decreases g
  {
    var t := Cleared(s, h);
    assert ParentsBelow(t) by {
      forall x | 0 <= x < |t| && t[x].parent.Some? ensures t[x].parent == s[x].parent {
      }
    }
    if t[g].parent.Some? {
      var p := t[g].parent.value;
      assert p == s[g].parent.value;
      if p != h {
        ClearedNoAnc(s, h, p);
      }
    }
  }

  /** The arena after `RemoveGrp` on sub-group `c`: `c` is cleared and unlinked. */
  ghost function Removed(s: seq<Group>, c: nat): seq<Group>
    requires ParentsBelow(s) && c < |s|
  {
    Cleared(s, c)[c := Unlinked(s[c])]
  }

  /** After `RemoveGrp` the parent has no sub-group of that name. */
  lemma {:induction false} RemovedGone(s: seq<Group>, h: nat, n: string)
    requires ValidArena(s) && FindChild(s, h, n).Some?
    ensures ValidArena(Removed(s, FindChild(s, h, n).value))
    ensures FindChild(Removed(s, FindChild(s, h, n).value), h, n) == None
  {
    var c := FindChild(s, h, n).value;
    var t := Removed(s, c);
    assert !Anc(s, c, 0);
    UnlinkValid(s, t);
    forall g | 0 <= g < |t| ensures !IsChild(t, g, h, n) {
      if g != c && !Anc(s, c, g) {
        assert t[g] == s[g];
      }
    }
  }

  /** `RenameGrp`'s effect on the arena. */
  function Renamed(s: seq<Group>, c: nat, n: string): seq<Group>
    requires c < |s|
  {
    s[c := s[c].(name := n)]
  }

  /**
   * Renaming a sub-group to a name no sibling has keeps the arena valid,
   * finds it by the new name and no longer by the old one.
   */
  lemma {:induction false} RenameFinds(s: seq<Group>, h: nat, oldName: string, newName: string)
    requires ValidArena(s) && FindChild(s, h, oldName).Some? && FindChild(s, h, newName).None?
    ensures ValidArena(Renamed(s, FindChild(s, h, oldName).value, newName))
    ensures FindChild(Renamed(s, FindChild(s, h, oldName).value, newName), h, newName) == FindChild(s, h, oldName)
    ensures FindChild(Renamed(s, FindChild(s, h, oldName).value, newName), h, oldName) == None
  {
    var c := FindChild(s, h, oldName).value;
    var t := Renamed(s, c, newName);
    forall a, b | 0 <= a < b < |t| && t[a].parent.Some? && t[b].parent == t[a].parent
      ensures t[a].name != t[b].name
    {
      if a == c { assert !IsChild(s, b, h, newName); }
      else if b == c { assert !IsChild(s, a, h, newName); }
    }
    FindChildIs(t, h, c);
    forall g | 0 <= g < |t| ensures !IsChild(t, g, h, oldName) {
      if g != c {
        assert t[g] == s[g];
      }
    }
  }
}
