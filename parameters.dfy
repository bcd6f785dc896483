/**
 * The parameter groups of one `ParameterManager` (src/Base/Parameter.cpp,
 * class `ParameterGrp`), as an object over the arena of ParamTree.
 *
 * `groups[h]` is the state of group handle `h`; handle 0 is the manager.
 * `signals` records, in order, what the groups report: the manager's
 * `signalParamChanged` (sent by `_Notify` when the group has a manager) and
 * the group's own `Notify(name)` to its observers. The lock table of
 * `ParameterLock` is passed to the operations that consult it.
 */
module Parameters {
  import opened Wrappers
  import opened ParamValues
  import opened ParamTree
  import ParamLocks

  datatype Signal =
    | ParamChanged(group: nat, typeName: string, name: Option<string>, value: Option<string>)
    | Observed(group: nat, key: string)

  /** `_Notify(type, name, value)`: only a group with a manager reports. */
  function ChangeNotice(g: Group, h: nat, typeName: string, name: Option<string>, value: Option<string>): seq<Signal>
  {
    if g.managed then [ParamChanged(h, typeName, name, value)] else []
  }

  /** Two states of a group that differ at most in their elements. */
  predicate SameShape(x: Group, y: Group)
  {
    x.(entries := []) == y.(entries := [])
  }

  /** Existing groups keep their name, place, manager and element; groups may be added. */
  ghost predicate Keeps(s: seq<Group>, t: seq<Group>)
  {
    |s| <= |t| && forall g :: 0 <= g < |s| ==> SameShape(s[g], t[g])
  }

  /** Every sub-group of `b` has a plain name, so `GetGroup` of that name goes one level down. */
  ghost predicate PlainKids(s: seq<Group>, b: nat)
  {
    forall c :: 0 <= c < |s| && s[c].parent == Some(b) ==> PlainName(s[c].name)
  }

  /**
   * The groups the sub-group loop of `revert` or `insertTo` may change when
   * it carries group `b` over to group `a`: when `b`'s sub-groups have plain
   * names, the groups below a sub-group of `a` whose name a sub-group of `b`
   * also has; otherwise any group below `a`, or `a` itself.
   */
  ghost predicate MayChange(s: seq<Group>, a: nat, b: nat, g: nat)
    requires ParentsBelow(s) && g < |s|
  {
    if PlainKids(s, b) then Anc(s, a, g) && FindChild(s, b, s[Top(s, a, g)].name).Some?
    else InTree(s, a, g)
  }

  /** As `Keeps`, and no group gains an element. */
  ghost predicate Shrinks(s: seq<Group>, t: seq<Group>)
  {
    Keeps(s, t) && forall g, e :: 0 <= g < |s| && e in t[g].entries ==> e in s[g].entries
  }

  class ParameterManager {
    var groups: seq<Group>
    var signals: seq<Signal>

    ghost predicate Valid()
      reads this
    {
      ValidArena(groups)
    }

    /** A manager with its root element and no parameters. */
    constructor()
      ensures Valid() && signals == []
      ensures groups == [Group("", None, true, true, [])]
    {
      groups := [Group("", None, true, true, [])];
      signals := [];
    }

    // -------------------------------------------------------------------
    // Queries

    /** `GetPath()`. */
    function GetPath(h: nat): string
      reads this
      requires Valid() && h < |groups|
    {
      PathOf(groups, h)
    }

    /** `GetGroups()`: the sub-groups, in document order (which is handle order). */
    function GetGroups(h: nat): seq<nat>
      reads this
    {
      Children(groups, h)
    }

    /** `HasGroup(name)`: some sub-group of `h` is called `n`. */
    function HasGroup(h: nat, n: string): (r: bool)
      reads this
      ensures r <==> exists c :: 0 <= c < |groups| && IsChild(groups, c, h, n)
    {
      FindChild(groups, h, n).Some?
    }

    /** `IsEmpty()`: no element below the group's element. */
    function IsEmpty(h: nat): (r: bool)
      reads this
      requires h < |groups|
      ensures r <==> !groups[h].hasNode ||
                     (groups[h].entries == [] && forall c :: 0 <= c < |groups| ==> groups[c].parent != Some(h))
    {
      var kids := Children(groups, h);
      assert kids != [] ==> kids[0] in kids;
      !groups[h].hasNode || (|groups[h].entries| == 0 && |kids| == 0)
    }

    function GetBool(h: nat, n: string, preset: bool): bool
      reads this
      requires h < |groups|
    {
      if !groups[h].hasNode then preset else ParamTree.GetBool(groups[h].entries, n, preset)
    }

    function GetInt(h: nat, n: string, preset: int): int
      reads this
      requires h < |groups|
    {
      if !groups[h].hasNode then preset else ParamTree.GetInt(groups[h].entries, n, preset)
    }

    function GetUnsigned(h: nat, n: string, preset: nat): nat
      reads this
      requires h < |groups|
    {
      if !groups[h].hasNode then preset else ParamTree.GetUnsigned(groups[h].entries, n, preset)
    }

    function GetASCII(h: nat, n: string, preset: string): string
      reads this
      requires h < |groups|
    {
      if !groups[h].hasNode then preset else ParamTree.GetASCII(groups[h].entries, n, preset)
    }

    /** The getter of kind `k`, with `preset` of that kind. */
    function GetValue(h: nat, k: Kind, n: string, preset: Value): Value
      reads this
      requires h < |groups|
    {
      if !groups[h].hasNode then preset
      else match Read(groups[h].entries, k, n)
        case Some(v) => v
        case None => preset
    }

    // -------------------------------------------------------------------
    // Sub-groups

    /**
     * `_GetGroup(name)`: the sub-group of that name, created (silently)
     * when missing; nothing for an orphan group.
     */
    method GetChild(p: nat, n: string) returns (r: Option<nat>)
      requires Valid() && p < |groups|
      modifies this
      ensures Valid() && signals == old(signals)
      ensures !old(groups[p]).hasNode ==> r.None? && groups == old(groups)
      ensures old(groups[p]).hasNode ==>
                r.Some? && r.value < |groups| && IsChild(groups, r.value, p, n) && groups[r.value].hasNode && Extends(old(groups), groups)
      ensures old(groups[p]).hasNode && old(FindChild(groups, p, n)).Some? ==>
                r == old(FindChild(groups, p, n)) && groups == old(groups)
      ensures old(groups[p]).hasNode && old(FindChild(groups, p, n)).None? ==>
                r == Some(old(|groups|)) && groups == old(groups) + [Group(n, Some(p), old(groups[p]).managed, true, [])]
    {
      if !groups[p].hasNode {
        return None;
      }
      r := FindChild(groups, p, n);
      if r.None? {
        AddChildValid(groups, p, n, groups[p].managed);
        groups := groups + [Group(n, Some(p), groups[p].managed, true, [])];
        r := Some(|groups| - 1);
      }
      assert groups[..old(|groups|)] == old(groups);
    }

    /**
     * `GetGroup(path)`: walk down the '/'-separated names, ignoring blank
     * ones. When the walk meets an orphan group the result is a new
     * stand-in group named by the whole path.
     */
    method GetGroup(h: nat, path: Option<string>) returns (r: nat)
      requires Valid() && h < |groups|
      modifies this
      ensures Valid() && r < |groups| && signals == old(signals)
      ensures Extends(old(groups), groups)
      ensures path.None? ==> r == h && groups == old(groups)
      ensures path.Some? && (old(groups[h]).hasNode || |PathTokens(path.value)| == 0) ==>
                Descends(groups, h, r, PathTokens(path.value))
      ensures path.Some? && !old(groups[h]).hasNode && |PathTokens(path.value)| > 0 ==>
                r == old(|groups|) && groups == old(groups) + [Group(path.value, None, false, false, [])]
      ensures path.Some? ==> forall x :: 0 <= x < old(|groups|) && Descends(old(groups), h, x, PathTokens(path.value)) ==>
                r == x && groups == old(groups)
    {
      r := h;
      if path.None? {
        return;
      }
      var toks := PathTokens(path.value);
      if !groups[h].hasNode {
        // `_GetGroup` of an orphan gives nothing at the first name already;
        // every group the walk reaches later has an element.
        if |toks| > 0 {
          AddOrphanValid(groups, path.value);
          groups := groups + [Group(path.value, None, false, false, [])];
          r := |groups| - 1;
          forall x | 0 <= x < old(|groups|) && Descends(old(groups), h, x, toks) ensures false {
            DescendsFromNode(old(groups), h, x, toks);
          }
        }
        return;
      }
      r := Walk(h, toks);
    }

    /** The walk of `GetGroup` from a group that has an element. */
    method Walk(h: nat, toks: seq<string>) returns (r: nat)
      requires Valid() && h < |groups| && groups[h].hasNode
      modifies this
      ensures Valid() && r < |groups| && signals == old(signals)
      ensures Extends(old(groups), groups) && Descends(groups, h, r, toks)
      ensures forall x :: 0 <= x < old(|groups|) && Descends(old(groups), h, x, toks) ==> r == x && groups == old(groups)
    {
      r := h;
      ghost var found := Resolve(groups, h, toks);
      var i := 0;
      assert toks[..0] == [];
      while i < |toks|
        invariant 0 <= i <= |toks|
        invariant Valid() && r < |groups| && signals == old(signals)
        invariant Extends(old(groups), groups)
        invariant Descends(groups, h, r, toks[..i]) && groups[r].hasNode
        invariant found.Some? ==> found.value < |groups| && groups == old(groups) && Descends(groups, h, found.value, toks)
      {
        ghost var before := groups;
        r := WalkStep(h, r, toks, i, found);
        ExtendsTrans(old(groups), before, groups);
        i := i + 1;
      }
      assert toks[..i] == toks;
      forall x | 0 <= x < old(|groups|) && Descends(old(groups), h, x, toks) ensures r == x && groups == old(groups) {
        ResolveComplete(old(groups), h, x, toks);
        DescendsUnique(groups, h, x, r, toks);
      }
    }

    /** One name of the walk: the sub-group of group `r` named `toks[i]`. */
    method WalkStep(ghost h: nat, r: nat, toks: seq<string>, i: nat, ghost found: Option<nat>) returns (next: nat)
      requires Valid() && r < |groups| && i < |toks| && groups[r].hasNode && Descends(groups, h, r, toks[..i])
      requires found.Some? ==> found.value < |groups| && Descends(groups, h, found.value, toks)
      modifies this
      ensures Valid() && next < |groups| && signals == old(signals) && Extends(old(groups), groups)
      ensures Descends(groups, h, next, toks[..i + 1]) && groups[next].hasNode
      ensures found.Some? ==> groups == old(groups)
    {
      if found.Some? {
        DescendsNext(groups, h, found.value, r, toks, i);
      }
      ghost var before := groups;
      var c := GetChild(r, toks[i]);
      DescendsGrow(before, groups, h, r, toks[..i]);
      DescendsStep(groups, h, r, c.value, toks, i);
      next := c.value;
    }

    /**
     * `RenameGrp(old, new)`: fails for an orphan group, an unknown old name
     * or a taken new name.
     */
    method RenameGrp(h: nat, oldName: string, newName: string) returns (ok: bool)
      requires Valid() && h < |groups|
      modifies this
      ensures Valid()
      ensures ok <==> old(groups[h]).hasNode && old(FindChild(groups, h, oldName)).Some? && old(FindChild(groups, h, newName)).None?
      ensures ok ==> groups == Renamed(old(groups), old(FindChild(groups, h, oldName)).value, newName)
      ensures ok ==> signals == old(signals) + ChangeNotice(old(groups[h]), h, GroupType, Some(newName), Some(oldName))
      ensures !ok ==> groups == old(groups) && signals == old(signals)
    {
      if !groups[h].hasNode {
        return false;
      }
      var it := FindChild(groups, h, oldName);
      if it.None? {
        return false;
      }
      var jt := FindChild(groups, h, newName);
      if jt.Some? {
        return false;
      }
      RenameFinds(groups, h, oldName, newName);
      var g := groups[h];
      groups := Renamed(groups, it.value, newName);
      signals := signals + ChangeNotice(g, h, GroupType, Some(newName), Some(oldName));
      ok := true;
    }

    /**
     * `Clear()`: every sub-group is cleared and taken out, then every
     * element of the group goes.
     */
    method Clear(h: nat)
      requires Valid() && h < |groups|
      modifies this
      ensures Valid()
      ensures old(groups[h]).hasNode ==> groups == Cleared(old(groups), h)
      ensures !old(groups[h]).hasNode ==> groups == old(groups) && signals == old(signals)
      ensures |groups| == old(|groups|) && old(signals) <= signals
      decreases |groups| - h
    {
      if !groups[h].hasNode {
        return;
      }
      ghost var s := groups;
      signals := signals + ChangeNotice(groups[h], h, GroupType, None, None);
      ghost var sig0 := old(signals);
      ClearStart(s, h);
      var c := h + 1;
      while c < |groups|
        invariant h < c <= |groups| == |s|
        invariant groups == ClearedBelow(s, h, c)
        invariant sig0 <= signals
      {
        ClearedBelowValid(s, h, c);
        ClearedBelowAt(s, h, c);
        if groups[c].parent == Some(h) {
          ClearChildStep(s, h, c);
          Clear(c);
          groups := groups[c := Unlinked(groups[c])];
        } else {
          ClearSkipStep(s, h, c);
        }
        c := c + 1;
      }
      ClearEnd(s, h);
      ClearedEmpty(s, h);
      groups := groups[h := groups[h].(entries := [])];
      signals := signals + [Observed(h, "")];
    }

    /** `RemoveGrp(name)`: clear the sub-group, then take it out. */
    method RemoveGrp(h: nat, n: string)
      requires Valid() && h < |groups|
      modifies this
      ensures Valid()
      ensures !old(groups[h]).hasNode || old(FindChild(groups, h, n)).None? ==>
                groups == old(groups) && signals == old(signals)
      ensures old(groups[h]).hasNode && old(FindChild(groups, h, n)).Some? ==>
                groups == Removed(old(groups), old(FindChild(groups, h, n)).value)
                && old(signals) < signals
                && signals[|signals| - 1] == Observed(h, n)
    {
      if !groups[h].hasNode {
        return;
      }
      var it := FindChild(groups, h, n);
      if it.None? {
        return;
      }
      var c := it.value;
      RemovedGone(groups, h, n);
      Clear(c);
      groups := groups[c := Unlinked(groups[c])];
      signals := signals + [Observed(h, n)];
    }

    // -------------------------------------------------------------------
    // Parameters

    /**
     * `_SetAttribute(type, name, value)` with the lock check of
     * `FindOrCreateElement`: nothing happens in an orphan group, a locked
     * name is an error, otherwise the element is found or created and its
     * value written, signalled only when it changed.
     */
    method SetAttribute(h: nat, k: Kind, n: string, v: string, locks: ParamLocks.LockTable) returns (err: Option<string>)
      requires Valid() && h < |groups| && k != TextKind && ParamLocks.WellFormed(locks)
      modifies this
      ensures Valid() && |groups| == old(|groups|)
      ensures var g := old(groups[h]);
        if !g.hasNode then err.None? && groups == old(groups) && signals == old(signals)
        else if ParamLocks.IsLocked(locks, h, n) then
          err == Some("Parameter group " + g.name + " is locked") && groups == old(groups) && signals == old(signals)
        else
          err.None? && groups == old(groups)[h := g.(entries := Assign(g.entries, k, n, v))]
          && signals == old(signals) + (if AttrChanges(g.entries, k, n, v) then ChangeNotice(g, h, TypeName(k), Some(n), Some(v)) else [])
             + [Observed(h, n)]
    {
      var g := groups[h];
      if !g.hasNode {
        return None;
      }
      err := ParamLocks.LockCheck(locks, h, g.name, n);
      if err.Some? {
        return;
      }
      var changed := AttrChanges(g.entries, k, n, v);
      StoreLookup(g.entries, k, n, v, k, n);
      EntriesValid(groups, h, Assign(g.entries, k, n, v));
      groups := groups[h := g.(entries := Assign(g.entries, k, n, v))];
      if changed {
        signals := signals + ChangeNotice(g, h, TypeName(k), Some(n), Some(v));
      }
      signals := signals + [Observed(h, n)];
    }

    /** `SetBool(name, b)`: stores "1" or "0". */
    method SetBool(h: nat, n: string, b: bool, locks: ParamLocks.LockTable) returns (err: Option<string>)
      requires Valid() && h < |groups| && ParamLocks.WellFormed(locks)
      modifies this
      ensures Valid() && |groups| == old(|groups|)
      ensures err.Some? <==> old(groups[h]).hasNode && ParamLocks.IsLocked(locks, h, n)
      ensures err.None? && old(groups[h]).hasNode ==>
                groups == old(groups)[h := old(groups[h]).(entries := Store(old(groups[h].entries), BoolKind, n, EncodeBool(b)))]
                && forall preset :: GetBool(h, n, preset) == b
      ensures err.Some? || !old(groups[h]).hasNode ==> groups == old(groups)
    {
      err := SetAttribute(h, BoolKind, n, EncodeBool(b), locks);
      if err.None? && groups[h].hasNode {
        forall preset ensures GetBool(h, n, preset) == b {
          SetBoolGetBool(old(groups[h].entries), n, b, preset);
        }
      }
    }

    /** `SetInt(name, i)`: stores `i` as `%li` prints it. */
    method SetInt(h: nat, n: string, i: int, locks: ParamLocks.LockTable) returns (err: Option<string>)
      requires Valid() && h < |groups| && ParamLocks.WellFormed(locks) && InLong(i)
      modifies this
      ensures Valid() && |groups| == old(|groups|)
      ensures err.Some? <==> old(groups[h]).hasNode && ParamLocks.IsLocked(locks, h, n)
      ensures err.None? && old(groups[h]).hasNode ==>
                groups == old(groups)[h := old(groups[h]).(entries := Store(old(groups[h].entries), IntKind, n, FormatLong(i)))]
                && forall preset :: GetInt(h, n, preset) == i
      ensures err.Some? || !old(groups[h]).hasNode ==> groups == old(groups)
    {
      err := SetAttribute(h, IntKind, n, FormatLong(i), locks);
      if err.None? && groups[h].hasNode {
        forall preset ensures GetInt(h, n, preset) == i {
          SetIntGetInt(old(groups[h].entries), n, i, preset);
        }
      }
    }

    /** `SetUnsigned(name, u)`: stores `u` as `%lu` prints it. */
    method SetUnsigned(h: nat, n: string, u: nat, locks: ParamLocks.LockTable) returns (err: Option<string>)
      requires Valid() && h < |groups| && ParamLocks.WellFormed(locks) && InULong(u)
      modifies this
      ensures Valid() && |groups| == old(|groups|)
      ensures err.Some? <==> old(groups[h]).hasNode && ParamLocks.IsLocked(locks, h, n)
      ensures err.None? && old(groups[h]).hasNode ==>
                groups == old(groups)[h := old(groups[h]).(entries := Store(old(groups[h].entries), UIntKind, n, FormatULong(u)))]
                && forall preset :: GetUnsigned(h, n, preset) == u
      ensures err.Some? || !old(groups[h]).hasNode ==> groups == old(groups)
    {
      err := SetAttribute(h, UIntKind, n, FormatULong(u), locks);
      if err.None? && groups[h].hasNode {
        forall preset ensures GetUnsigned(h, n, preset) == u {
          SetUnsignedGetUnsigned(old(groups[h].entries), n, u, preset);
        }
      }
    }

    /**
     * `SetASCII(name, text)`: no lock check; the text node is created or
     * overwritten, signalled for a new element, for a first non-empty text
     * and for a changed text.
     */
    method SetASCII(h: nat, n: string, v: string)
      requires Valid() && h < |groups|
      modifies this
      ensures Valid() && |groups| == old(|groups|)
      ensures var g := old(groups[h]);
        if !g.hasNode then groups == old(groups) && signals == old(signals)
        else
          groups == old(groups)[h := g.(entries := Store(g.entries, TextKind, n, v))]
          && signals == old(signals) + (if TextChanges(g.entries, n, v) then ChangeNotice(g, h, "FCText", Some(n), Some(v)) else [])
             + [Observed(h, n)]
      ensures old(groups[h]).hasNode ==> forall preset :: GetASCII(h, n, preset) == v
    {
      var g := groups[h];
      if !g.hasNode {
        return;
      }
      var es := g.entries;
      var f := Find(es, TextKind, n);
      var es2: seq<Entry>;
      var notify: bool;
      if f.None? {
        es2 := es + [Entry(TextKind, n, Some(v))];
        notify := true;
      } else if es[f.value].value.None? {
        es2 := es[f.value := Entry(TextKind, n, Some(v))];
        notify := v != "";
      } else if es[f.value].value.value != v {
        es2 := es[f.value := Entry(TextKind, n, Some(v))];
        notify := true;
      } else {
        es2 := es;
        notify := false;
      }
      assert es2 == Store(es, TextKind, n, v);
      StoreLookup(es, TextKind, n, v, TextKind, n);
      EntriesValid(groups, h, es2);
      groups := groups[h := g.(entries := es2)];
      if notify {
        signals := signals + ChangeNotice(g, h, "FCText", Some(n), Some(v));
      }
      signals := signals + [Observed(h, n)];
      forall preset ensures GetASCII(h, n, preset) == v {
        SetASCIIGetASCII(es, n, v, preset);
      }
    }

    /** The setter of a value's kind, as `insertTo` calls it. */
    method SetValue(h: nat, n: string, v: Value, locks: ParamLocks.LockTable) returns (err: Option<string>)
      requires Valid() && h < |groups| && ParamLocks.WellFormed(locks) && InRange(v)
      modifies this
      ensures Valid() && |groups| == old(|groups|)
      ensures forall g :: 0 <= g < |groups| && g != h ==> groups[g] == old(groups[g])
      ensures SameShape(groups[h], old(groups[h]))
      ensures err.Some? <==> old(groups[h]).hasNode && KindOf(v) != TextKind && ParamLocks.IsLocked(locks, h, n)
      ensures err.None? && old(groups[h]).hasNode ==> groups[h].entries == Store(old(groups[h].entries), KindOf(v), n, Encode(v))
      ensures err.Some? || !old(groups[h]).hasNode ==> groups == old(groups)
    {
      match v
      case TextVal(t) =>
        SetASCII(h, n, t);
        err := None;
      case BoolVal(b) =>
        err := SetBool(h, n, b, locks);
      case IntVal(i) =>
        err := SetInt(h, n, i, locks);
      case UIntVal(u) =>
        err := SetUnsigned(h, n, u, locks);
    }

    /**
     * `RemoveASCII`, `RemoveBool`, `RemoveInt`, `RemoveUnsigned`,
     * `RemoveFloat`: the element goes and its removal is signalled with no
     * value; nothing happens when there is no such element.
     */
    method Remove(h: nat, k: Kind, n: string)
      requires Valid() && h < |groups|
      modifies this
      ensures Valid() && |groups| == old(|groups|)
      ensures var g := old(groups[h]);
        if !g.hasNode || Find(g.entries, k, n).None? then groups == old(groups) && signals == old(signals)
        else
          groups == old(groups)[h := g.(entries := RemoveEntry(g.entries, k, n))]
          && signals == old(signals) + ChangeNotice(g, h, TypeName(k), Some(n), None) + [Observed(h, n)]
    {
      var g := groups[h];
      if !g.hasNode {
        return;
      }
      var f := Find(g.entries, k, n);
      if f.None? {
        return;
      }
      RemoveLookup(g.entries, k, n, k, n);
      EntriesValid(groups, h, RemoveEntry(g.entries, k, n));
      groups := groups[h := g.(entries := RemoveEntry(g.entries, k, n))];
      signals := signals + ChangeNotice(g, h, TypeName(k), Some(n), None) + [Observed(h, n)];
    }

    // -------------------------------------------------------------------
    // revert, insertTo, copyTo

    /**
     * One step of a `revert` loop: when group `a` reads element `d`'s value
     * (with that value as preset), its parameter of that name goes.
     */
    method RevertStep(a: nat, d: Entry, k: Kind)
      requires Valid() && a < |groups|
      modifies this
      ensures Valid()
      ensures groups == if old(groups[a]).hasNode then old(groups)[a := old(groups[a]).(entries := RevertOne(old(groups[a].entries), d, k))] else old(groups)
    {
      if d.kind == k && Decode(d).Some? {
        var preset := Decode(d).value;
        if GetValue(a, k, d.name, preset) == preset {
          Remove(a, k, d.name);
        }
      }
    }

    /** One loop of `revert`, over the other group's elements of kind `k`. */
    method RevertKind(a: nat, bs: seq<Entry>, k: Kind)
      requires Valid() && a < |groups|
      modifies this
      ensures Valid() && groups == RevertedIn(old(groups), a, bs, k)
    {
      var i := 0;
      while i < |bs|
        invariant 0 <= i <= |bs|
        invariant Valid() && groups == RevertedIn(old(groups), a, bs[..i], k)
      {
        RevertStep(a, bs[i], k);
        RevertedInStep(old(groups), a, bs, i, k);
        i := i + 1;
      }
      assert bs[..i] == bs;
    }

    /**
     * The value loops of `revert`: group `a`'s parameters become what
     * `RevertAll` keeps of them, so afterwards `a` has no parameter that
     * holds the value group `b` has for it; no other group changes.
     */
    method RevertEntries(a: nat, b: nat)
      requires Valid() && a < |groups| && b < |groups| && a != b
      modifies this
      ensures Valid() && Shrinks(old(groups), groups) && groups[b] == old(groups[b])
      ensures groups == if old(groups[a]).hasNode
                        then old(groups)[a := old(groups[a]).(entries := RevertAll(old(groups[a].entries), old(groups[b].entries)))]
                        else old(groups)
      ensures old(groups[a]).hasNode ==>
                forall e, d, k :: e in groups[a].entries && d in groups[b].entries && k != FloatKind ==> !Reverts(d, e, k)
    {
      var bs := groups[b].entries;
      RevertKind(a, bs, TextKind);
      RevertKind(a, bs, BoolKind);
      RevertKind(a, bs, IntKind);
      RevertKind(a, bs, UIntKind);
      RevertEntriesSpec(old(groups), a, b);
    }

    /**
     * `revert(other)`: first the sub-groups both have, recursively (at
     * most `fuel` levels deep), then every parameter of this group that
     * holds the other group's value is removed. Only this group and the
     * groups its sub-group loop may change are touched; when the other
     * group's sub-groups have plain names, this group's parameters are
     * exactly what `RevertAll` keeps of them.
     */
    method Revert(a: nat, b: nat, fuel: nat)
      requires Valid() && a < |groups| && b < |groups|
      modifies this
      ensures Valid() && Shrinks(old(groups), groups)
      ensures a == b ==> groups == old(groups) && signals == old(signals)
      ensures forall g :: 0 <= g < old(|groups|) && g != a && !MayChange(old(groups), a, b, g) ==> groups[g] == old(groups[g])
      ensures a != b && old(groups[a]).hasNode && (fuel == 0 || PlainKids(old(groups), b)) ==>
                groups[a].entries == RevertAll(old(groups[a].entries), groups[b].entries)
      ensures a != b && old(groups[a]).hasNode ==> forall e, d, k :: e in groups[a].entries && d in groups[b].entries && k != FloatKind ==> !Reverts(d, e, k)
      decreases fuel, 1
    {
      if a == b {
        assert Shrinks(groups, groups);
        return;
      }
      ghost var s1 := groups;
      if fuel > 0 {
        RevertChildren(a, b, fuel);
        if PlainKids(s1, b) {
          assert !Anc(s1, a, a) by {
            if Anc(s1, a, a) { AncBelow(s1, a, a); }
          }
        }
      } else {
        assert Shrinks(groups, groups);
      }
      ghost var s2 := groups;
      RevertEntries(a, b);
      ShrinksTrans(s1, s2, groups);
    }

    /**
     * The sub-group loop of `revert`: each sub-group of the other group
     * that this group also has is reverted recursively; nothing else
     * changes.
     */
    method RevertChildren(a: nat, b: nat, fuel: nat)
      requires Valid() && a < |groups| && b < |groups| && fuel > 0
      modifies this
      ensures Valid() && Shrinks(old(groups), groups)
      ensures forall g :: 0 <= g < old(|groups|) && !MayChange(old(groups), a, b, g) ==> groups[g] == old(groups[g])
      decreases fuel, 0
    {
      ghost var s0 := groups;
      var kids := Children(groups, b);
      var i := 0;
      assert Shrinks(groups, groups);
      while i < |kids|
        invariant Valid() && Shrinks(s0, groups) && a < |groups| && b < |groups|
        invariant forall c :: c in kids ==> c < |s0| && s0[c].parent == Some(b)
        invariant forall g :: 0 <= g < |s0| && !MayChange(s0, a, b, g) ==> groups[g] == s0[g]
      {
        assert kids[i] in kids;
        assert SameShape(s0[kids[i]], groups[kids[i]]);
        var name := groups[kids[i]].name;
        if HasGroup(a, name) {
          assert groups[a].hasNode;
          ghost var s1 := groups;
          var ca := GetGroup(a, Some(name));
          ShrinksGrow(s1, groups);
          ghost var s2 := groups;
          Revert(ca, kids[i], fuel - 1);
          MayChangeInTree(s2, groups, ca, kids[i]);
          ShrinksTrans(s0, s1, s2);
          TurnFrame(s0, s1, s2, groups, a, b, kids[i], ca);
          ShrinksTrans(s0, s2, groups);
        }
        i := i + 1;
      }
    }

    /**
     * One step of an `insertTo` loop: element `e`'s value, when it has one
     * of kind `k`, is set in group `dst` by the setter of that kind.
     */
    method CopyStep(dst: nat, e: Entry, k: Kind, locks: ParamLocks.LockTable) returns (err: Option<string>)
      requires Valid() && dst < |groups| && ParamLocks.WellFormed(locks)
      modifies this
      ensures Valid() && OnlyEntries(old(groups), groups, dst)
      ensures err.Some? <==> old(groups[dst]).hasNode && Refused(locks, dst, e, k)
      ensures err.None? && old(groups[dst]).hasNode ==> groups[dst].entries == CopyOne(old(groups[dst].entries), e, k)
      ensures err.Some? || !old(groups[dst]).hasNode ==> groups == old(groups)
    {
      err := None;
      if e.kind == k && Decode(e).Some? {
        DecodeInRange(e);
        err := SetValue(dst, e.name, Decode(e).value, locks);
      }
    }

    /** One loop of `insertTo`; a refused write ends the copy with its error. */
    method CopyKind(dst: nat, srcs: seq<Entry>, k: Kind, locks: ParamLocks.LockTable) returns (err: Option<string>)
      requires Valid() && dst < |groups| && ParamLocks.WellFormed(locks)
      modifies this
      ensures Valid() && OnlyEntries(old(groups), groups, dst)
      ensures !old(groups[dst]).hasNode ==> err.None? && groups == old(groups)
      ensures old(groups[dst]).hasNode ==> (err.None? <==> !AnyRefused(locks, dst, srcs, k))
      ensures old(groups[dst]).hasNode && err.None? ==> groups[dst].entries == CopyFold(old(groups[dst].entries), srcs, k)
    {
      err := None;
      var i := 0;
      while i < |srcs|
        invariant 0 <= i <= |srcs|
        invariant Valid() && OnlyEntries(old(groups), groups, dst)
        invariant !old(groups[dst]).hasNode ==> groups == old(groups)
        invariant err.None?
        invariant old(groups[dst]).hasNode ==> !AnyRefused(locks, dst, srcs[..i], k)
        invariant old(groups[dst]).hasNode ==> groups[dst].entries == CopyFold(old(groups[dst].entries), srcs[..i], k)
      {
        AnyRefusedSnoc(locks, dst, srcs, k, i);
        assert srcs[..i + 1][..i] == srcs[..i];
        ghost var before := groups;
        err := CopyStep(dst, srcs[i], k, locks);
        OnlyTrans(old(groups), before, groups, dst);
        if err.Some? {
          AnyRefusedHas(locks, dst, srcs, k, i);
          return;
        }
        i := i + 1;
      }
      assert srcs[..i] == srcs;
    }

    /**
     * The value loops of `insertTo`, kind by kind (floating-point values
     * left out): only `dst`'s parameters change, and without a refused
     * write they become `CopyAll` of them and the source's.
     */
    method InsertEntries(src: nat, dst: nat, locks: ParamLocks.LockTable) returns (err: Option<string>)
      requires Valid() && src < |groups| && dst < |groups| && src != dst && ParamLocks.WellFormed(locks)
      modifies this
      ensures Valid() && OnlyEntries(old(groups), groups, dst) && Keeps(old(groups), groups) && groups[src] == old(groups[src])
      ensures !old(groups[dst]).hasNode ==> err.None? && groups == old(groups)
      ensures err.None? && old(groups[dst]).hasNode ==> groups[dst].entries == CopyAll(old(groups[dst].entries), old(groups[src].entries))
      ensures err.None? && old(groups[dst]).hasNode ==> Mirrors(groups[dst].entries, groups[src].entries)
    {
      var srcs := groups[src].entries;
      ghost var s0 := groups;
      err := CopyKind(dst, srcs, TextKind, locks);
      ghost var s1 := groups;
      if err.None? {
        err := CopyKind(dst, srcs, BoolKind, locks);
      }
      ghost var s2 := groups;
      if err.None? {
        err := CopyKind(dst, srcs, IntKind, locks);
      }
      ghost var s3 := groups;
      if err.None? {
        err := CopyKind(dst, srcs, UIntKind, locks);
      }
      OnlyTrans(s0, s1, s2, dst);
      OnlyTrans(s0, s2, s3, dst);
      OnlyTrans(s0, s3, groups, dst);
      if err.None? && s0[dst].hasNode {
        assert groups[dst].entries == CopyAll(s0[dst].entries, srcs);
        CopyAllMirrors(s0[dst].entries, srcs);
      }
    }

    /**
     * `insertTo(dst)`: the sub-groups first, each into the sub-group of
     * `dst` of the same name (at most `fuel` levels deep), then the values.
     * A write refused by a lock ends the whole copy with its error. Only
     * `dst` and the groups its sub-group loop may change are touched; when
     * the source's sub-groups have plain names, `dst`'s parameters become
     * `CopyAll` of them and the source's.
     */
    method InsertTo(src: nat, dst: nat, fuel: nat, locks: ParamLocks.LockTable) returns (err: Option<string>)
      requires Valid() && src < |groups| && dst < |groups| && ParamLocks.WellFormed(locks)
      modifies this
      ensures Valid() && Keeps(old(groups), groups)
      ensures src == dst ==> err.None? && groups == old(groups) && signals == old(signals)
      ensures forall g :: 0 <= g < old(|groups|) && g != dst && !MayChange(old(groups), dst, src, g) ==> groups[g] == old(groups[g])
      ensures src != dst && err.None? && old(groups[dst]).hasNode && (fuel == 0 || PlainKids(old(groups), src)) ==>
                groups[dst].entries == CopyAll(old(groups[dst].entries), groups[src].entries)
      ensures src != dst && err.None? && old(groups[dst]).hasNode ==> Mirrors(groups[dst].entries, groups[src].entries)
      decreases fuel, 1
    {
      err := None;
      if src == dst {
        return;
      }
      ghost var s1 := groups;
      if fuel > 0 {
        err := InsertChildren(src, dst, fuel, locks);
        if PlainKids(s1, src) {
          assert !Anc(s1, dst, dst) by {
            if Anc(s1, dst, dst) { AncBelow(s1, dst, dst); }
          }
        }
        if err.Some? {
          return;
        }
      }
      ghost var s2 := groups;
      err := InsertEntries(src, dst, locks);
      KeepsTrans(s1, s2, groups);
    }

    /**
     * The sub-group loop of `insertTo`: each sub-group of the source is
     * inserted into the sub-group of `dst` of its name; nothing else changes.
     */
    method InsertChildren(src: nat, dst: nat, fuel: nat, locks: ParamLocks.LockTable) returns (err: Option<string>)
      requires Valid() && src < |groups| && dst < |groups| && fuel > 0 && ParamLocks.WellFormed(locks)
      modifies this
      ensures Valid() && Keeps(old(groups), groups)
      ensures forall g :: 0 <= g < old(|groups|) && !MayChange(old(groups), dst, src, g) ==> groups[g] == old(groups[g])
      decreases fuel, 0
    {
      err := None;
      ghost var s0 := groups;
      var kids := Children(groups, src);
      var i := 0;
      while i < |kids|
        invariant Valid() && Keeps(s0, groups) && src < |groups| && dst < |groups|
        invariant forall c :: c in kids ==> c < |s0| && s0[c].parent == Some(src)
        invariant forall g :: 0 <= g < |s0| && !MayChange(s0, dst, src, g) ==> groups[g] == s0[g]
      {
        assert kids[i] in kids;
        assert SameShape(s0[kids[i]], groups[kids[i]]);
        ghost var s1 := groups;
        var d := GetGroup(dst, Some(groups[kids[i]].name));
        ghost var s2 := groups;
        ShrinksGrow(s1, s2);
        err := InsertTo(kids[i], d, fuel - 1, locks);
        MayChangeInTree(s2, groups, d, kids[i]);
        KeepsTrans(s0, s1, s2);
        TurnFrame(s0, s1, s2, groups, dst, src, kids[i], d);
        KeepsTrans(s0, s2, groups);
        if err.Some? {
          return;
        }
        i := i + 1;
      }
    }

    /**
     * `copyTo(dst)`: `dst` is cleared, then everything is inserted. Every
     * other group is left as `Clear` left it, and when the source's
     * sub-groups have plain names, `dst` holds exactly what the copy loops
     * set in an empty group.
     */
    method CopyTo(src: nat, dst: nat, fuel: nat, locks: ParamLocks.LockTable) returns (err: Option<string>)
      requires Valid() && src < |groups| && dst < |groups| && ParamLocks.WellFormed(locks)
      modifies this
      ensures Valid() && old(|groups|) <= |groups|
      ensures src == dst ==> err.None? && groups == old(groups) && signals == old(signals)
      ensures src != dst && old(groups[dst]).hasNode ==>
                forall g :: 0 <= g < old(|groups|) && g != dst ==> groups[g] == Cleared(old(groups), dst)[g]
      ensures src != dst && !old(groups[dst]).hasNode ==>
                forall g :: 0 <= g < old(|groups|) && g != dst && !MayChange(old(groups), dst, src, g) ==> groups[g] == old(groups[g])
      ensures src != dst && err.None? && old(groups[dst]).hasNode && (fuel == 0 || PlainKids(old(groups), src)) ==>
                groups[dst].entries == CopyAll([], groups[src].entries)
      ensures src != dst && err.None? && old(groups[dst]).hasNode ==> Mirrors(groups[dst].entries, groups[src].entries)
    {
      if src == dst {
        return None;
      }
      ghost var s0 := groups;
      Clear(dst);
      ghost var s1 := groups;
      err := InsertTo(src, dst, fuel, locks);
      if s0[dst].hasNode {
        CopyToFrame(s0, s1, groups, src, dst);
      }
    }
  }

  /**
   * After `Clear` on `dst` the insert can change no older group but `dst`:
   * nothing lies below `dst` any more. Plain sub-group names stay plain.
   */
  lemma {:induction false} CopyToFrame(s0: seq<Group>, s1: seq<Group>, s2: seq<Group>, src: nat, dst: nat)
    requires ValidArena(s0) && dst < |s0| && s1 == Cleared(s0, dst) && |s1| <= |s2|
    requires forall g :: 0 <= g < |s1| && g != dst && !MayChange(s1, dst, src, g) ==> s2[g] == s1[g]
    ensures forall g :: 0 <= g < |s0| && g != dst ==> s2[g] == Cleared(s0, dst)[g]
    ensures PlainKids(s0, src) ==> PlainKids(s1, src)
  {
    forall g | 0 <= g < |s0| && g != dst ensures s2[g] == s1[g] {
      ClearedNoAnc(s0, dst, g);
    }
    forall c | 0 <= c < |s1| && s1[c].parent == Some(src) ensures s0[c].parent == Some(src) && s1[c].name == s0[c].name {
    }
  }

  /** Writing `e`'s value in group `dst` in the loop of kind `k` is refused by a lock. */
  predicate Refused(locks: ParamLocks.LockTable, dst: nat, e: Entry, k: Kind)
  {
    k != TextKind && e.kind == k && Decode(e).Some? && ParamLocks.IsLocked(locks, dst, e.name)
  }

  /** Some write of the loop of kind `k` is refused. */
  ghost predicate AnyRefused(locks: ParamLocks.LockTable, dst: nat, srcs: seq<Entry>, k: Kind)
  {
    exists j :: 0 <= j < |srcs| && Refused(locks, dst, srcs[j], k)
  }

  lemma {:induction false} AnyRefusedSnoc(locks: ParamLocks.LockTable, dst: nat, srcs: seq<Entry>, k: Kind, i: nat)
    requires i < |srcs|
    ensures AnyRefused(locks, dst, srcs[..i + 1], k) <==> AnyRefused(locks, dst, srcs[..i], k) || Refused(locks, dst, srcs[i], k)
  {
    var p := srcs[..i + 1];
    assert p[i] == srcs[i];
    assert forall j :: 0 <= j < i ==> p[j] == srcs[..i][j];
  }

  lemma {:induction false} AnyRefusedHas(locks: ParamLocks.LockTable, dst: nat, srcs: seq<Entry>, k: Kind, i: nat)
    requires i < |srcs| && Refused(locks, dst, srcs[i], k)
    ensures AnyRefused(locks, dst, srcs, k)
  {
  }

  /** The groups after one `revert` loop of kind `k` over `bs` in group `a`. */
  ghost function RevertedIn(s: seq<Group>, a: nat, bs: seq<Entry>, k: Kind): seq<Group>
    requires a < |s|
  {
    if s[a].hasNode then s[a := s[a].(entries := RevertFold(s[a].entries, bs, k))] else s
  }

  /** One more element of the other group: one more `revert` step. */
  lemma {:induction false} RevertedInStep(s: seq<Group>, a: nat, bs: seq<Entry>, i: nat, k: Kind)
    requires a < |s| && i < |bs|
    ensures var t := RevertedIn(s, a, bs[..i], k);
      RevertedIn(s, a, bs[..i + 1], k) == if t[a].hasNode then t[a := t[a].(entries := RevertOne(t[a].entries, bs[i], k))] else t
  {
    assert bs[..i + 1][..i] == bs[..i];
  }

  /** The four value loops of `revert` keep exactly what `RevertAll` keeps. */
  lemma {:induction false} RevertEntriesSpec(s: seq<Group>, a: nat, b: nat)
    requires ValidArena(s) && a < |s| && b < |s| && a != b
    ensures var bs := s[b].entries;
            var t := RevertedIn(RevertedIn(RevertedIn(RevertedIn(s, a, bs, TextKind), a, bs, BoolKind), a, bs, IntKind), a, bs, UIntKind);
            t == (if s[a].hasNode then s[a := s[a].(entries := RevertAll(s[a].entries, bs))] else s) &&
            Shrinks(s, t) && t[b] == s[b] &&
            forall e, d, k :: s[a].hasNode && e in t[a].entries && d in t[b].entries && k != FloatKind ==> !Reverts(d, e, k)
  {
    var bs := s[b].entries;
    var t := RevertedIn(RevertedIn(RevertedIn(RevertedIn(s, a, bs, TextKind), a, bs, BoolKind), a, bs, IntKind), a, bs, UIntKind);
    if s[a].hasNode {
      var es := s[a].entries;
      var t1 := RevertedIn(s, a, bs, TextKind);
      assert t1[a].hasNode && t1[a].entries == RevertFold(es, bs, TextKind);
      var t2 := RevertedIn(t1, a, bs, BoolKind);
      assert t2[a].hasNode && t2[a].entries == RevertFold(t1[a].entries, bs, BoolKind);
      var t3 := RevertedIn(t2, a, bs, IntKind);
      assert t3[a].hasNode && t3[a].entries == RevertFold(t2[a].entries, bs, IntKind);
      assert t == s[a := s[a].(entries := RevertAll(es, bs))];
      forall e | e in t[a].entries
        ensures e in es && forall j, k :: 0 <= j < |bs| && k != FloatKind ==> !Reverts(bs[j], e, k)
      {
        RevertAllSpec(es, bs, e);
      }
      assert Shrinks(s, s);
      ShrinksStep(s, s, t, a);
      forall e, d, k | e in t[a].entries && d in bs && k != FloatKind ensures !Reverts(d, e, k) {
        var j :| 0 <= j < |bs| && bs[j] == d;
      }
    } else {
      assert t == s;
    }
  }

  /**
   * One turn of a sub-group loop: `ca`, the group `GetGroup` returned in `a`
   * for the name of `b`'s sub-group `kid`, and everything below it are among
   * the groups the loop may change.
   */
  lemma {:induction false} TurnTarget(s0: seq<Group>, s2: seq<Group>, a: nat, b: nat, kid: nat, ca: nat, g: nat)
    requires ValidArena(s0) && ValidArena(s2) && Keeps(s0, s2)
    requires kid < |s0| && s0[kid].parent == Some(b) && g < |s0|
    requires ca < |s2| && InTree(s2, ca, g)
    requires Descends(s2, a, ca, PathTokens(s0[kid].name)) || ca >= |s0|
    ensures MayChange(s0, a, b, g)
  {
    if Anc(s2, ca, g) {
      AncBelow(s2, ca, g);
    }
    var name := s0[kid].name;
    assert forall x :: 0 <= x < |s0| ==> s2[x].parent == s0[x].parent by {
      forall x | 0 <= x < |s0| ensures s2[x].parent == s0[x].parent {
        assert SameShape(s0[x], s2[x]);
      }
    }
    AncKeeps(s0, s2, a, g);
    if PlainKids(s0, b) {
      PlainNameTokens(name);
      assert s2[ca].parent == Some(a) && s2[ca].name == name;
      assert SameShape(s0[ca], s2[ca]);
      if g != ca {
        TopOfChild(s2, a, ca, g);
      }
      FindChildIs(s0, b, kid);
    } else if |PathTokens(name)| > 0 {
      DescendsAnc(s2, a, ca, PathTokens(name));
      if g != ca {
        AncTrans(s2, a, ca, g);
      }
    }
  }

  /**
   * The frame of a sub-group loop survives one turn: groups the loop may
   * not change are unchanged after `GetGroup` (state `s2`) and the recursive
   * call (state `s3`), which may change only `ca` and what lies below it.
   */
  lemma {:induction false} TurnFrame(s0: seq<Group>, s1: seq<Group>, s2: seq<Group>, s3: seq<Group>, a: nat, b: nat, kid: nat, ca: nat)
    requires ValidArena(s0) && ValidArena(s2) && Keeps(s0, s1) && Extends(s1, s2) && |s2| <= |s3|
    requires kid < |s0| && s0[kid].parent == Some(b) && ca < |s2|
    requires Descends(s2, a, ca, PathTokens(s0[kid].name)) || ca >= |s0|
    requires forall g :: 0 <= g < |s0| && !MayChange(s0, a, b, g) ==> s1[g] == s0[g]
    requires forall g :: 0 <= g < |s2| && !InTree(s2, ca, g) ==> s3[g] == s2[g]
    ensures Keeps(s0, s2)
    ensures forall g :: 0 <= g < |s0| && !MayChange(s0, a, b, g) ==> s3[g] == s0[g]
  {
    assert forall g :: 0 <= g < |s1| ==> s2[g] == s1[g];
    forall g | 0 <= g < |s0| && !MayChange(s0, a, b, g) ensures s3[g] == s0[g] {
      if InTree(s2, ca, g) {
        TurnTarget(s0, s2, a, b, kid, ca, g);
      }
    }
  }

  /** A recursive call changes only what its own sub-group loop may change, and its own group. */
  lemma {:induction false} MayChangeInTree(s: seq<Group>, t: seq<Group>, a: nat, b: nat)
    requires ParentsBelow(s) && |s| <= |t|
    requires forall g :: 0 <= g < |s| && g != a && !MayChange(s, a, b, g) ==> t[g] == s[g]
    ensures forall g :: 0 <= g < |s| && !InTree(s, a, g) ==> t[g] == s[g]
  {
  }

  /** The arena `t` is `s` with groups appended. */
  ghost predicate Extends(s: seq<Group>, t: seq<Group>)
  {
    |s| <= |t| && t[..|s|] == s
  }

  lemma {:induction false} ExtendsTrans(s: seq<Group>, t: seq<Group>, u: seq<Group>)
    requires Extends(s, t) && Extends(t, u)
    ensures Extends(s, u)
  {
    assert u[..|s|] == u[..|t|][..|s|];
  }

  /** Only the elements of group `d` differ between `s` and `t`. */
  ghost predicate OnlyEntries(s: seq<Group>, t: seq<Group>, d: nat)
  {
    |t| == |s| && d < |s| && SameShape(t[d], s[d]) && forall g :: 0 <= g < |s| && g != d ==> t[g] == s[g]
  }

  lemma {:induction false} OnlyTrans(s: seq<Group>, t: seq<Group>, u: seq<Group>, d: nat)
    requires OnlyEntries(s, t, d) && (u == t || OnlyEntries(t, u, d))
    ensures OnlyEntries(s, u, d) && Keeps(s, u)
  {
  }

  lemma {:induction false} KeepsTrans(s: seq<Group>, t: seq<Group>, u: seq<Group>)
    requires Keeps(s, t) && Keeps(t, u)
    ensures Keeps(s, u)
  {
  }

  lemma {:induction false} ShrinksTrans(s: seq<Group>, t: seq<Group>, u: seq<Group>)
    requires Shrinks(s, t) && Shrinks(t, u)
    ensures Shrinks(s, u)
  {
  }

  lemma {:induction false} ShrinksGrow(s: seq<Group>, t: seq<Group>)
    requires |s| <= |t| && t[..|s|] == s
    ensures Shrinks(s, t)
  {
    assert forall g :: 0 <= g < |s| ==> t[g] == s[g];
  }

  lemma {:induction false} ShrinksStep(s0: seq<Group>, s: seq<Group>, t: seq<Group>, a: nat)
    requires Shrinks(s0, s) && |t| == |s| && a < |s|
    requires forall g :: 0 <= g < |s| && g != a ==> t[g] == s[g]
    requires SameShape(t[a], s[a]) && forall e :: e in t[a].entries ==> e in s[a].entries
    ensures Shrinks(s0, t)
  {
  }
}
