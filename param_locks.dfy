/**
 * The table of parameter locks (src/Base/Parameter.cpp, `ParameterLock` and
 * the check in `ParameterGrp::FindOrCreateElement`).
 *
 * A process-wide map sends a group handle to a map from the names locked in
 * that group to the number of live locks on each name. Creating a
 * `ParameterLock` increments the count of every name it lists ("*" when it
 * lists none); destroying it decrements them, erasing names whose count
 * reaches zero and the group when no name is left. A group is locked for a
 * name when "*" or that name has a count in its entry.
 */
module ParamLocks {
  import opened Wrappers

  type Handle = nat

  /** Locked names and their counts per group handle. */
  type LockTable = map<Handle, map<string, int>>

  /** The counts a group has (none when it has no entry). */
  function Names(t: LockTable, h: Handle): map<string, int>
  {
    if h in t then t[h] else map[]
  }

  /** The number of live locks on name `n` of group `h`. */
  function Count(t: LockTable, h: Handle, n: string): int
  {
    if n in Names(t, h) then Names(t, h)[n] else 0
  }

  /** What every lock operation keeps: positive counts, no group without names. */
  predicate WellFormed(t: LockTable)
  {
    forall h :: h in t ==> |t[h]| > 0 && forall n :: n in t[h] ==> t[h][n] > 0
  }

  predicate Positive(m: map<string, int>)
  {
    forall n :: n in m ==> m[n] > 0
  }

  /** The names a lock holds: the ones it was given, or "*" for all of them. */
  function LockNames(names: seq<string>): (held: seq<string>)
    ensures |held| > 0
  {
    if |names| == 0 then ["*"] else names
  }

  /** `++pnames[name]`, counting up from zero for a new name. */
  function Inc(m: map<string, int>, n: string): map<string, int>
  {
    m[n := (if n in m then m[n] else 0) + 1]
  }

  function IncAll(m: map<string, int>, names: seq<string>): map<string, int>
  {
    if |names| == 0 then m else Inc(IncAll(m, names[..|names| - 1]), names[|names| - 1])
  }

  /** The table after a lock on `names` of group `h` is created. */
  function Acquire(t: LockTable, h: Handle, names: seq<string>): LockTable
  {
    t[h := IncAll(Names(t, h), names)]
  }

  /** `--count`, erasing the name when it reaches zero; unknown names are skipped. */
  function Dec(m: map<string, int>, n: string): map<string, int>
  {
    if n !in m then m
    else if m[n] - 1 == 0 then m - {n}
    else m[n := m[n] - 1]
  }

  function DecAll(m: map<string, int>, names: seq<string>): map<string, int>
  {
    if |names| == 0 then m else Dec(DecAll(m, names[..|names| - 1]), names[|names| - 1])
  }

  /** The table after a lock on `names` of group `h` is destroyed. */
  function Release(t: LockTable, h: Handle, names: seq<string>): LockTable
  {
    if h !in t then t
    else
      var m := DecAll(t[h], names);
      if |m| == 0 then t - {h} else t[h := m]
  }

  /** Whether writing parameter `n` of group `h` is refused. */
  predicate IsLocked(t: LockTable, h: Handle, n: string)
  {
    h in t && ("*" in t[h] || n in t[h])
  }

  /**
   * The check `FindOrCreateElement` makes before it touches an element:
   * an error naming the group when the group is locked for `n`.
   */
  function LockCheck(t: LockTable, h: Handle, group: string, n: string): (r: Option<string>)
    requires WellFormed(t)
    ensures r.Some? <==> Count(t, h, "*") > 0 || Count(t, h, n) > 0
    ensures r.Some? ==> r.value == "Parameter group " + group + " is locked"
  {
    if IsLocked(t, h, n) then Some("Parameter group " + group + " is locked") else None
  }

  // ---------------------------------------------------------------------
  // Counting

  lemma {:induction false} IncAllCounts(m: map<string, int>, names: seq<string>, n: string)
    ensures n in IncAll(m, names) <==> n in m || n in names
    ensures (if n in IncAll(m, names) then IncAll(m, names)[n] else 0)
         == (if n in m then m[n] else 0) + multiset(names)[n]
    ensures Positive(m) ==> Positive(IncAll(m, names))
  {
    if |names| > 0 {
      var init := names[..|names| - 1];
      IncAllCounts(m, init, n);
      assert names == init + [names[|names| - 1]];
      assert multiset(names) == multiset(init) + multiset{names[|names| - 1]};
      if Positive(m) {
        forall k | k in IncAll(m, names) ensures IncAll(m, names)[k] > 0 {
          IncAllCounts(m, init, k);
        }
      }
    }
  }

  lemma {:induction false} DecAllCounts(m: map<string, int>, names: seq<string>, n: string)
    requires Positive(m)
    ensures Positive(DecAll(m, names))
    ensures (if n in DecAll(m, names) then DecAll(m, names)[n] else 0)
         == Clamp((if n in m then m[n] else 0) - multiset(names)[n])
  {
    if |names| > 0 {
      var init := names[..|names| - 1];
      DecAllCounts(m, init, n);
      assert names == init + [names[|names| - 1]];
      assert multiset(names) == multiset(init) + multiset{names[|names| - 1]};
    }
  }

  function Clamp(x: int): nat { if x < 0 then 0 else x }

  /** Acquiring adds one count per occurrence of a name, for that group only. */
  lemma {:induction false} AcquireCounts(t: LockTable, h: Handle, names: seq<string>, g: Handle, n: string)
    ensures Count(Acquire(t, h, names), g, n) == Count(t, g, n) + (if g == h then multiset(names)[n] else 0)
  {
    if g == h {
      IncAllCounts(Names(t, h), names, n);
    }
  }

  lemma {:induction false} AcquireWellFormed(t: LockTable, h: Handle, names: seq<string>)
    requires WellFormed(t) && |names| > 0
    ensures WellFormed(Acquire(t, h, names))
  {
    var m := IncAll(Names(t, h), names);
    IncAllCounts(Names(t, h), names, names[0]);
    assert names[0] in m;
  }

  /** Releasing removes one count per occurrence of a name, never going below zero. */
  lemma {:induction false} ReleaseCounts(t: LockTable, h: Handle, names: seq<string>, g: Handle, n: string)
    requires WellFormed(t)
    ensures WellFormed(Release(t, h, names))
    ensures Count(Release(t, h, names), g, n) == if g == h then Clamp(Count(t, g, n) - multiset(names)[n]) else Count(t, g, n)
  {
    if h in t {
      DecAllCounts(t[h], names, n);
    }
  }

  /** Two well-formed tables with the same counts are the same table. */
  lemma {:induction false} SameCounts(t1: LockTable, t2: LockTable)
    requires WellFormed(t1) && WellFormed(t2)
    requires forall h, n :: Count(t1, h, n) == Count(t2, h, n)
    ensures t1 == t2
  {
    forall h | h in t1 ensures h in t2 && t1[h] == t2[h] {
      var n :| n in t1[h];
      assert Count(t1, h, n) == Count(t2, h, n);
      forall k ensures k in t1[h] <==> k in t2[h] {
        assert Count(t1, h, k) == Count(t2, h, k);
      }
      forall k | k in t1[h] ensures t1[h][k] == t2[h][k] {
        assert Count(t1, h, k) == Count(t2, h, k);
      }
    }
    forall h | h in t2 ensures h in t1 {
      var n :| n in t2[h];
      assert Count(t1, h, n) == Count(t2, h, n);
    }
  }

  /**
   * Creating a lock and then destroying it leaves the table as it was:
   * the names it introduced are erased again, and so is the group's entry
   * when the lock was the only one on that group.
   */
  lemma {:induction false} LockRoundTrip(t: LockTable, h: Handle, names: seq<string>)
    requires WellFormed(t)
    ensures Release(Acquire(t, h, LockNames(names)), h, LockNames(names)) == t
  {
    var held := LockNames(names);
    var a := Acquire(t, h, held);
    AcquireWellFormed(t, h, held);
    forall g, n ensures Count(Release(a, h, held), g, n) == Count(t, g, n) {
      AcquireCounts(t, h, held, g, n);
      ReleaseCounts(a, h, held, g, n);
    }
    ReleaseCounts(a, h, held, h, "*");
    SameCounts(Release(a, h, held), t);
  }

  /**
   * While a lock lives, its group is locked for exactly the names it holds
   * (every name for a lock without names), besides those locked already.
   */
  lemma {:induction false} LockedWhileHeld(t: LockTable, h: Handle, names: seq<string>, n: string)
    requires WellFormed(t)
    ensures IsLocked(Acquire(t, h, LockNames(names)), h, n)
        <==> |names| == 0 || n in names || "*" in names || IsLocked(t, h, n)
  {
    var held := LockNames(names);
    AcquireCounts(t, h, held, h, n);
    AcquireCounts(t, h, held, h, "*");
    AcquireWellFormed(t, h, held);
    IncAllCounts(Names(t, h), held, n);
    IncAllCounts(Names(t, h), held, "*");
  }

  /** The process-wide lock table, `_ParamLock`. */
  class LockRegistry {
    var table: LockTable

    constructor()
      ensures table == map[]
    {
      table := map[];
    }

    /**
     * The `ParameterLock` constructor: returns the names the lock holds and
     * counts each of them up.
     */
    method Lock(h: Handle, names: seq<string>) returns (held: seq<string>)
      modifies this
      ensures held == LockNames(names)
      ensures table == Acquire(old(table), h, held)
    {
      held := names;
      if |held| == 0 {
        held := ["*"];
      }
      var pnames := Names(table, h);
      var i := 0;
      while i < |held|
        invariant 0 <= i <= |held|
        invariant pnames == IncAll(Names(old(table), h), held[..i])
      {
        var n := held[i];
        pnames := pnames[n := (if n in pnames then pnames[n] else 0) + 1];
        assert held[..i + 1][..i] == held[..i];
        i := i + 1;
      }
      assert held[..i] == held;
      table := table[h := pnames];
    }

    /** The `ParameterLock` destructor, for a lock holding `held` on group `h`. */
    method Unlock(h: Handle, held: seq<string>)
      modifies this
      ensures table == Release(old(table), h, held)
    {
      if h in table {
        var pnames := table[h];
        var i := 0;
        while i < |held|
          invariant 0 <= i <= |held|
          invariant pnames == DecAll(old(table)[h], held[..i])
        {
          var n := held[i];
          if n in pnames {
            var c := pnames[n] - 1;
            if c == 0 {
              pnames := pnames - {n};
            } else {
              pnames := pnames[n := c];
            }
          }
          assert held[..i + 1][..i] == held[..i];
          i := i + 1;
        }
        assert held[..i] == held;
        if |pnames| == 0 {
          table := table - {h};
        } else {
          table := table[h := pnames];
        }
      }
    }
  }
}
