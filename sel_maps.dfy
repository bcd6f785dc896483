/**
 * The renderer's two selection maps (`std::map<int, const VertexCacheMap *>`),
 * modelled as sequences of selections in ascending id order: `operator[]`
 * assignment replaces or inserts, `erase` removes the selection with that id
 * and reports whether there was one.
 */
module SelMaps {
  import opened RenderTypes

  /** The ids ascend strictly: the map's iteration order, no id twice. */
  predicate Ascending(sels: seq<Selection>)
  {
    forall i, j :: 0 <= i < j < |sels| ==> sels[i].id < sels[j].id
  }

  predicate HasId(sels: seq<Selection>, id: int)
  {
    exists i :: 0 <= i < |sels| && sels[i].id == id
  }

  /** `sels[id] = &caches`. */
  function Put(sels: seq<Selection>, id: int, caches: seq<CacheGroup>): (r: seq<Selection>)
    requires Ascending(sels)
    ensures Ascending(r)
    ensures forall s :: s in r <==> (s in sels && s.id != id) || s == Selection(id, caches)
    ensures |r| == if HasId(sels, id) then |sels| else |sels| + 1
  {
    if |sels| == 0 then [Selection(id, caches)]
    else if sels[0].id == id then
      assert !HasId(sels[1..], id);
      [Selection(id, caches)] + sels[1..]
    else if id < sels[0].id then
      assert !HasId(sels, id);
      [Selection(id, caches)] + sels
    else
      assert HasId(sels, id) <==> HasId(sels[1..], id) by {
        if HasId(sels, id) {
          var i :| 0 <= i < |sels| && sels[i].id == id;
          assert sels[1..][i - 1] == sels[i];
        }
      }
      [sels[0]] + Put(sels[1..], id, caches)
  }

  /** `sels.erase(id)`: the remaining map. */
  function Erase(sels: seq<Selection>, id: int): (r: seq<Selection>)
    requires Ascending(sels)
    ensures Ascending(r)
    ensures forall s :: s in r <==> s in sels && s.id != id
    ensures |r| == if HasId(sels, id) then |sels| - 1 else |sels|
  {
    if |sels| == 0 then []
    else if sels[0].id == id then
      assert !HasId(sels[1..], id);
      sels[1..]
    else
      assert HasId(sels, id) <==> HasId(sels[1..], id) by {
        if HasId(sels, id) {
          var i :| 0 <= i < |sels| && sels[i].id == id;
          assert sels[1..][i - 1] == sels[i];
        }
      }
      [sels[0]] + Erase(sels[1..], id)
  }

  /** The first selection of two ascending maps with the same selections is the same. */
  lemma {:induction false} SameHead(a: seq<Selection>, b: seq<Selection>)
    requires Ascending(a) && Ascending(b) && |a| > 0 && |b| > 0
    requires forall s :: s in a <==> s in b
    ensures a[0] == b[0]
  {
    assert a[0] in a && b[0] in b;
    var i :| 0 <= i < |b| && b[i] == a[0];
    var j :| 0 <= j < |a| && a[j] == b[0];
    assert b[0].id <= b[i].id && a[0].id <= a[j].id;
  }

  /** Two ascending maps with the same selections are the same sequence. */
  lemma {:induction false} AscendingUnique(a: seq<Selection>, b: seq<Selection>)
    requires Ascending(a) && Ascending(b)
    requires forall s :: s in a <==> s in b
    ensures a == b
  {
    assert |a| > 0 ==> a[0] in a;
    assert |b| > 0 ==> b[0] in b;
    if |a| > 0 {
      SameHead(a, b);
      forall s ensures s in a[1..] <==> s in b[1..] {
        if s in a[1..] {
          var i :| 1 <= i < |a| && a[i] == s;
          assert s != a[0] && s in a && s in b;
          var k :| 0 <= k < |b| && b[k] == s;
          assert b[1..][k - 1] == s;
        }
        if s in b[1..] {
          var i :| 1 <= i < |b| && b[i] == s;
          assert s != b[0] && s in b && s in a;
          var k :| 0 <= k < |a| && a[k] == s;
          assert a[1..][k - 1] == s;
        }
      }
      AscendingUnique(a[1..], b[1..]);
      assert a == [a[0]] + a[1..] && b == [b[0]] + b[1..];
    }
  }

  /** Erasing what was just added removes the id altogether. */
  lemma {:induction false} EraseAfterPut(sels: seq<Selection>, id: int, caches: seq<CacheGroup>)
    requires Ascending(sels)
    ensures Erase(Put(sels, id, caches), id) == Erase(sels, id)
  {
    AscendingUnique(Erase(Put(sels, id, caches), id), Erase(sels, id));
  }

  /** Adding a selection whose id is already there with the same caches changes nothing. */
  lemma {:induction false} PutPresent(sels: seq<Selection>, id: int, caches: seq<CacheGroup>)
    requires Ascending(sels) && Selection(id, caches) in sels
    ensures Put(sels, id, caches) == sels
  {
    forall s ensures s in Put(sels, id, caches) <==> s in sels {
      if s in sels && s.id == id {
        var i :| 0 <= i < |sels| && sels[i] == s;
        var j :| 0 <= j < |sels| && sels[j] == Selection(id, caches);
        assert i == j;
      }
    }
    AscendingUnique(Put(sels, id, caches), sels);
  }
}
