/**
 * The section hatch textures. All renderers share one registry keyed by the
 * address of the caller's image; each renderer points at no entry or at one,
 * and an entry counts the renderers pointing at it. An entry dies when its
 * count drops to zero, and its OpenGL texture (made lazily when a section is
 * first drawn) is deleted with it.
 *
 * Addresses and renderers are numbers; address 0 is the null pointer. The
 * bytes found at an image address are passed in as `image`.
 */
module Hatch {
  /** One registry entry. */
  datatype HatchTexture = HatchTexture(
    key: nat,          // the image address the entry is registered under
    data: seq<bv8>,    // the copied image
    texture: nat,      // the OpenGL texture name, 0 before the first section is drawn
    refcount: int,
    width: int,
    height: int,
    nc: int)

  /** The entry `operator[]` default-constructs for an address not yet registered. */
  const Fresh := HatchTexture(0, [], 0, 0, 100, 100, 0)

  /**
   * The registry, which renderer points at which entry, and the OpenGL
   * textures deleted so far.
   */
  datatype Hatches = Hatches(textures: map<nat, HatchTexture>, held: map<nat, nat>, freed: seq<nat>)

  /** The renderers pointing at the entry of `k`. */
  function Holders(held: map<nat, nat>, k: nat): set<nat>
  {
    set r | r in held && held[r] == k
  }

  /**
   * Each entry sits under its own non-null key and counts exactly the
   * renderers pointing at it, at least one; every renderer points at a live
   * entry.
   */
  ghost predicate Valid(s: Hatches)
  {
    (forall k :: k in s.textures ==>
       k != 0 && s.textures[k].key == k && s.textures[k].refcount == |Holders(s.held, k)| &&
       s.textures[k].refcount >= 1) &&
    (forall r :: r in s.held ==> s.held[r] in s.textures)
  }

  /** What a renderer's pointer may be dereferenced for: it points at a live entry under its own key. */
  predicate Reachable(s: Hatches, r: nat)
  {
    r in s.held ==> s.held[r] in s.textures && s.textures[s.held[r]].key == s.held[r]
  }

  /** `deleteHatchTexture` of renderer `r`, releasing its pointer in every case. */
  function AfterRelease(s: Hatches, r: nat): Hatches
    requires Reachable(s, r)
  {
    if r !in s.held then s
    else
      var k := s.held[r];
      var t := s.textures[k].(refcount := s.textures[k].refcount - 1);
      if t.refcount != 0 then s.(textures := s.textures[k := t], held := s.held - {r})
      else s.(textures := s.textures[k := t] - {t.key}, held := s.held - {r},
              freed := s.freed + (if t.texture != 0 then [t.texture] else []))
  }

  /** `_HatchTextures[ptr]`: the entry of `ptr`, default-constructed when missing. */
  function Registered(s: Hatches, ptr: nat): (s': Hatches)
    ensures ptr in s'.textures && s'.held == s.held && s'.freed == s.freed
    ensures forall k :: k in s'.textures <==> k in s.textures || k == ptr
    ensures forall k :: k in s.textures ==> s'.textures[k] == s.textures[k]
  {
    if ptr in s.textures then s else s.(textures := s.textures[ptr := Fresh])
  }

  /** The renderer takes a reference to the entry of `ptr`; the first reference fills it with the image. */
  function Attach(s: Hatches, r: nat, ptr: nat, image: seq<bv8>, nc: nat, width: nat, height: nat): Hatches
    requires ptr in s.textures
    requires |image| >= nc * width * height
  {
    var info := s.textures[ptr].(refcount := s.textures[ptr].refcount + 1);
    var info' := if info.refcount == 1
                 then info.(width := width, height := height, nc := nc, key := ptr,
                            data := image[..nc * width * height])
                 else info;
    s.(textures := s.textures[ptr := info'], held := s.held[r := ptr])
  }

  /** `setHatchImage(ptr, nc, width, height)` of renderer `r`, the bytes at `ptr` being `image`. */
  function AfterSetImage(s: Hatches, r: nat, ptr: nat, image: seq<bv8>, nc: nat, width: nat, height: nat): Hatches
    requires Reachable(s, r)
    requires forall k :: k in s.textures ==> s.textures[k].key == k
    requires |image| >= nc * width * height
  {
    if ptr == 0 then AfterRelease(s, r)
    else if r in s.held && s.held[r] == ptr then Registered(s, ptr)
    else
      var s1 := AfterRelease(Registered(s, ptr), r);
      assert ptr in s1.textures by {
        if r in s.held { assert s.textures[s.held[r]].key == s.held[r]; }
      }
      Attach(s1, r, ptr, image, nc, width, height)
  }

  /**
   * `Valid`, except that the entry of `p` may be the unreferenced entry that
   * `_HatchTextures[p]` just made.
   */
  ghost predicate ValidExcept(s: Hatches, p: nat)
  {
    (forall k :: k in s.textures ==>
       k != 0 && s.textures[k].refcount == |Holders(s.held, k)| &&
       (k != p ==> s.textures[k].key == k && s.textures[k].refcount >= 1) &&
       (k == p ==> s.textures[k].key == k || s.textures[k].refcount == 0)) &&
    (forall r :: r in s.held ==> s.held[r] in s.textures)
  }

  lemma {:induction false} RegisteredValidExcept(s: Hatches, ptr: nat)
    requires Valid(s) && ptr != 0
    ensures ValidExcept(Registered(s, ptr), ptr)
  {
    if ptr !in s.textures {
      assert Holders(s.held, ptr) == {};
    }
  }

  lemma {:induction false} ReleaseValidExcept(s: Hatches, r: nat, p: nat)
    requires ValidExcept(s, p)
    requires r in s.held ==> s.held[r] != p
    ensures Reachable(s, r)
    ensures var s' := AfterRelease(s, r);
      ValidExcept(s', p) && r !in s'.held && (p in s.textures ==> p in s'.textures)
    ensures var s' := AfterRelease(s, r);
      forall q :: q != r ==> (q in s'.held <==> q in s.held) && (q in s.held ==> s'.held[q] == s.held[q])
  {
    if r in s.held {
      var s' := AfterRelease(s, r);
      forall k | k in s'.textures
        ensures s'.textures[k].refcount == |Holders(s'.held, k)|
      {
        HoldersRemove(s.held, r, k);
      }
      forall q | q in s'.held ensures s'.held[q] in s'.textures {
        assert q != r && s.held[q] in s.textures;
        if s.held[q] == s.held[r] {
          assert {q, r} <= Holders(s.held, s.held[r]);
          assert |{q, r}| == 2;
          HoldersRemove(s.held, r, s.held[r]);
        }
      }
    }
  }

  lemma {:induction false} AttachValid(s: Hatches, r: nat, ptr: nat, image: seq<bv8>, nc: nat, width: nat, height: nat)
    requires ValidExcept(s, ptr) && ptr in s.textures && r !in s.held
    requires |image| >= nc * width * height
    ensures var s' := Attach(s, r, ptr, image, nc, width, height);
      Valid(s') && s'.held == s.held[r := ptr] &&
      (s.textures[ptr].refcount == 0 ==> s'.textures[ptr].data == image[..nc * width * height])
  {
    forall k | k in s.textures {
      HoldersAdd(s.held, r, k, ptr);
    }
  }

  lemma {:induction false} HoldersRemove(held: map<nat, nat>, r: nat, k: nat)
    requires r in held
    ensures |Holders(held - {r}, k)| == |Holders(held, k)| - (if held[r] == k then 1 else 0)
  {
    if held[r] == k {
      assert Holders(held - {r}, k) == Holders(held, k) - {r};
    } else {
      assert Holders(held - {r}, k) == Holders(held, k);
    }
  }

  lemma {:induction false} HoldersAdd(held: map<nat, nat>, r: nat, k: nat, p: nat)
    requires r !in held
    ensures |Holders(held[r := p], k)| == |Holders(held, k)| + (if p == k then 1 else 0)
  {
    if p == k {
      assert Holders(held[r := p], k) == Holders(held, k) + {r};
    } else {
      assert Holders(held[r := p], k) == Holders(held, k);
    }
  }

  /**
   * Releasing keeps the registry consistent: the renderer lets go of its
   * entry, no other renderer's pointer changes, and the entry dies exactly
   * when `r` was its last holder.
   */
  lemma {:induction false} ReleaseValid(s: Hatches, r: nat)
    requires Valid(s)
    ensures Reachable(s, r)
    ensures var s' := AfterRelease(s, r);
      Valid(s') && r !in s'.held &&
      (forall q :: q != r ==> (q in s'.held <==> q in s.held) && (q in s.held ==> s'.held[q] == s.held[q])) &&
      (r in s.held ==> (s.held[r] in s'.textures <==> |Holders(s.held, s.held[r])| > 1))
  {
    if r in s.held {
      var s' := AfterRelease(s, r);
      forall k | k in s'.textures
        ensures s'.textures[k].key == k && s'.textures[k].refcount == |Holders(s'.held, k)|
      {
        HoldersRemove(s.held, r, k);
      }
      forall q | q in s'.held ensures s'.held[q] in s'.textures {
        assert q != r && s.held[q] in s.textures;
        if s.held[q] == s.held[r] {
          assert {q, r} <= Holders(s.held, s.held[r]);
          assert |{q, r}| == 2;
          HoldersRemove(s.held, r, s.held[r]);
        }
      }
    }
  }

  /** After `setHatchImage` the renderer points at the entry of `ptr`, which holds the image if it was new. */
  lemma {:induction false} SetImageValid(s: Hatches, r: nat, ptr: nat, image: seq<bv8>, nc: nat, width: nat, height: nat)
    requires Valid(s)
    requires |image| >= nc * width * height
    ensures Reachable(s, r) && forall k :: k in s.textures ==> s.textures[k].key == k
    ensures var s' := AfterSetImage(s, r, ptr, image, nc, width, height);
      Valid(s') &&
      (ptr == 0 ==> r !in s'.held) &&
      (ptr != 0 ==> r in s'.held && s'.held[r] == ptr) &&
      (ptr != 0 && ptr !in s.textures ==> s'.textures[ptr].data == image[..nc * width * height]) &&
      (forall q :: q != r ==> (q in s'.held <==> q in s.held) && (q in s.held ==> s'.held[q] == s.held[q]))
  {
    ReleaseValid(s, r);
    if ptr == 0 {
    } else if r in s.held && s.held[r] == ptr {
      assert ptr in s.textures;
    } else {
      SetImageMoves(s, r, ptr, image, nc, width, height);
    }
  }

  /** The case of `setHatchImage` that moves the renderer to another entry. */
  lemma {:induction false} SetImageMoves(s: Hatches, r: nat, ptr: nat, image: seq<bv8>, nc: nat, width: nat, height: nat)
    requires Valid(s) && ptr != 0 && !(r in s.held && s.held[r] == ptr)
    requires |image| >= nc * width * height
    ensures Reachable(s, r) && forall k :: k in s.textures ==> s.textures[k].key == k
    ensures var s' := AfterSetImage(s, r, ptr, image, nc, width, height);
      Valid(s') && r in s'.held && s'.held[r] == ptr &&
      (ptr !in s.textures ==> s'.textures[ptr].data == image[..nc * width * height]) &&
      (forall q :: q != r ==> (q in s'.held <==> q in s.held) && (q in s.held ==> s'.held[q] == s.held[q]))
  {
    ReleaseValid(s, r);
    var s0 := Registered(s, ptr);
    RegisteredValidExcept(s, ptr);
    ReleaseValidExcept(s0, r, ptr);
    var s1 := AfterRelease(s0, r);
    if ptr !in s.textures {
      assert s1.textures[ptr] == Fresh;
    }
    AttachValid(s1, r, ptr, image, nc, width, height);
  }

  class HatchRegistry {
    var textures: map<nat, HatchTexture>
    var held: map<nat, nat>
    var freed: seq<nat>

    function State(): Hatches
      reads this
    {
      Hatches(textures, held, freed)
    }

    constructor ()
      ensures State() == Hatches(map[], map[], []) && Valid(State())
    {
      textures := map[];
      held := map[];
      freed := [];
    }

    /** `deleteHatchTexture`, also what a renderer's destructor does. */
    method Release(r: nat)
      requires Reachable(State(), r)
      modifies this
      ensures State() == AfterRelease(old(State()), r)
      ensures old(Valid(State())) ==> Valid(State())
    {
      if Valid(State()) {
        ReleaseValid(State(), r);
      }
      if r !in held {
        return;
      }
      var k := held[r];
      var t := textures[k];
      t := t.(refcount := t.refcount - 1);
      textures := textures[k := t];
      held := held - {r};
      if t.refcount != 0 {
        return;
      }
      if t.texture != 0 {
        freed := freed + [t.texture];
      }
      textures := textures - {t.key};
    }

    method SetHatchImage(r: nat, ptr: nat, image: seq<bv8>, nc: nat, width: nat, height: nat)
      requires Valid(State())
      requires |image| >= nc * width * height
      modifies this
      ensures Reachable(old(State()), r)
      ensures State() == AfterSetImage(old(State()), r, ptr, image, nc, width, height)
      ensures Valid(State())
    {
      ghost var s := State();
      SetImageValid(s, r, ptr, image, nc, width, height);
      if ptr == 0 {
        Release(r);
        return;
      }
      if ptr !in textures {
        textures := textures[ptr := Fresh];
      }
      assert State() == Registered(s, ptr);
      if r in held && held[r] == ptr {
        return;
      }
      RegisteredValidExcept(s, ptr);
      ReleaseValidExcept(State(), r, ptr);
      Release(r);
      AttachImage(r, ptr, image, nc, width, height);
    }

    /** The reference `setHatchImage` takes, after releasing the old one. */
    method AttachImage(r: nat, ptr: nat, image: seq<bv8>, nc: nat, width: nat, height: nat)
      requires ptr in textures
      requires |image| >= nc * width * height
      modifies this
      ensures State() == Attach(old(State()), r, ptr, image, nc, width, height)
    {
      var info := textures[ptr];
      info := info.(refcount := info.refcount + 1);
      if info.refcount == 1 {
        info := info.(width := width, height := height, nc := nc, key := ptr,
                      data := image[..nc * width * height]);
      }
      textures := textures[ptr := info];
      held := held[r := ptr];
    }
  }

  // ---------------------------------------------------------------------
  // The release as written: the pointer is kept when the count stays positive

  function AfterReleaseAsWritten(s: Hatches, r: nat): Hatches
    requires Reachable(s, r)
  {
    if r !in s.held then s
    else
      var k := s.held[r];
      var t := s.textures[k].(refcount := s.textures[k].refcount - 1);
      if t.refcount != 0 then s.(textures := s.textures[k := t])
      else s.(textures := s.textures[k := t] - {t.key}, held := s.held - {r},
              freed := s.freed + (if t.texture != 0 then [t.texture] else []))
  }

  /**
   * Two renderers share the hatch image at address 1. The first clears its
   * hatch image twice (or clears it and is destroyed): the entry is erased and
   * its texture deleted while the second renderer still points at it.
   */
  lemma {:induction false} ReleaseAsWrittenDangles()
    ensures var s := Hatches(map[1 := HatchTexture(1, [], 7, 2, 100, 100, 4)], map[10 := 1, 20 := 1], []);
      Valid(s) &&
      var s1 := AfterReleaseAsWritten(s, 10);
      Reachable(s1, 10) &&
      var s2 := AfterReleaseAsWritten(s1, 10);
      20 in s2.held && s2.held[20] !in s2.textures && s2.freed == [7]
  {
    var s := Hatches(map[1 := HatchTexture(1, [], 7, 2, 100, 100, 4)], map[10 := 1, 20 := 1], []);
    assert Holders(s.held, 1) == {10, 20};
  }
}
