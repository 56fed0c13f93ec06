/** The snapshot cache of the document search worker: least recently used texts go first. */
module SnapshotCache {

  const LIMIT := 134217728

  type Texts = map<string, string>

  function Size(texts: Texts, id: string): nat {
    if id in texts then 2 * |texts[id]| else 0
  }

  function Total(texts: Texts, ids: seq<string>): nat {
    if ids == [] then 0 else Size(texts, ids[0]) + Total(texts, ids[1..])
  }

  /** How many of the least recently used texts have to go to make room. */
  function Evicted(texts: Texts, recent: seq<string>, room: int): (n: nat)
    ensures n <= |recent|
  {
    if recent != [] && Total(texts, recent) > room then 1 + Evicted(texts, recent[1..], room) else 0
  }

  predicate Distinct(ids: seq<string>) {
    ids == [] || (ids[0] !in ids[1..] && Distinct(ids[1..]))
  }

  function Without(ids: seq<string>, id: string): seq<string> {
    if ids == [] then [] else (if ids[0] == id then [] else [ids[0]]) + Without(ids[1..], id)
  }

  lemma {:induction false} WithoutMeans(texts: Texts, ids: seq<string>, id: string)
    requires Distinct(ids)
    ensures var r := Without(ids, id);
      && Distinct(r) && (forall x :: x in r <==> x in ids && x != id)
      && Total(texts, ids) == Total(texts, r) + if id in ids then Size(texts, id) else 0
  {
    if ids != [] {
      var rest := Without(ids[1..], id);
      assert ids == [ids[0]] + ids[1..];
      WithoutMeans(texts, ids[1..], id);
      assert ([ids[0]] + rest)[1..] == rest && [] + rest == rest;
    }
  }

  lemma {:induction false} TotalConcat(texts: Texts, a: seq<string>, b: seq<string>)
    ensures Total(texts, a + b) == Total(texts, a) + Total(texts, b)
    decreases |a|
  {
    if a == [] {
      assert a + b == b;
    } else {
      assert (a + b)[1..] == a[1..] + b;
      TotalConcat(texts, a[1..], b);
    }
  }

  lemma {:induction false} TotalSame(a: Texts, b: Texts, ids: seq<string>)
    requires forall id :: id in ids ==> Size(a, id) == Size(b, id)
    ensures Total(a, ids) == Total(b, ids)
  {
    if ids != [] {
      assert ids == [ids[0]] + ids[1..];
      TotalSame(a, b, ids[1..]);
    }
  }

  /** Eviction makes room, and takes no text that could have stayed. */
  lemma {:induction false} EvictedMeans(texts: Texts, recent: seq<string>, room: int)
    ensures var n := Evicted(texts, recent, room);
      && (room >= 0 ==> Total(texts, recent[n..]) <= room)
      && (forall k :: 0 <= k < n ==> Total(texts, recent[k..]) > room)
  {
    var n := Evicted(texts, recent, room);
    assert recent[0..] == recent;
    if n > 0 {
      EvictedMeans(texts, recent[1..], room);
      forall k | 0 <= k < n
        ensures Total(texts, recent[k..]) > room
      {
        assert k > 0 ==> recent[k..] == recent[1..][k - 1..];
      }
      assert recent[n..] == recent[1..][n - 1..];
    }
  }

  lemma {:induction false} DistinctNext(ids: seq<string>, id: string)
    requires Distinct(ids) && id !in ids
    ensures Distinct(ids + [id])
  {
    if ids == [] {
      assert ids + [id] == [id] && [id][1..] == [];
    } else {
      assert (ids + [id])[1..] == ids[1..] + [id];
      assert ids == [ids[0]] + ids[1..];
      DistinctNext(ids[1..], id);
    }
  }

  lemma Members(a: seq<string>, b: seq<string>)
    ensures forall x :: x in a + b <==> x in a || x in b
  {
  }

  lemma Regroup(a: seq<string>, b: seq<string>, c: seq<string>)
    ensures a + (b + c) == a + b + c
  {
  }

  class Cache {
    var texts: Texts
    var recent: seq<string>
    var bytes: int

    /** The order lists every text once, and the byte count is right. */
    ghost predicate Valid()
      reads this
    {
      Distinct(recent) && (forall id :: id in recent <==> id in texts) && bytes == Total(texts, recent)
    }

    constructor ()
      ensures Valid() && texts == map[] && recent == []
    {
      texts, recent, bytes := map[], [], 0;
    }

    /** The listed texts are there, each once, and the byte count is theirs. */
    ghost predicate Listed()
      reads this
    {
      Distinct(recent) && (forall id :: id in recent ==> id in texts) && bytes == Total(texts, recent)
    }

    /** Gives up the least recently used texts until the others leave room for `room` bytes. */
    method MakeRoom(room: nat) returns (released: seq<string>)
      requires Listed()
      modifies this
      ensures Listed() && (room <= LIMIT ==> bytes + room <= LIMIT)
      ensures released + recent == old(recent) && |released| == Evicted(old(texts), old(recent), LIMIT - room)
      ensures forall x :: x in texts <==> x in old(texts) && x !in released
      ensures forall x :: x in texts ==> texts[x] == old(texts)[x]
    {
      released := [];
      while recent != [] && bytes + room > LIMIT
        invariant Listed() && released + recent == old(recent)
        invariant forall x :: x in texts <==> x in old(texts) && x !in released
        invariant forall x :: x in texts ==> texts[x] == old(texts)[x]
        invariant Total(texts, recent) == Total(old(texts), recent)
        invariant |released| + Evicted(old(texts), recent, LIMIT - room) == Evicted(old(texts), old(recent), LIMIT - room)
        decreases |recent|
      {
        var first := recent[0];
        ghost var before, rest := texts, recent[1..];
        assert recent == [first] + rest;
        bytes := bytes - Size(texts, first);
        texts := texts - {first};
        recent := recent[1..];
        released := released + [first];
        TotalSame(before, texts, rest);
        TotalSame(texts, old(texts), rest);
      }
    }

    /** Stores a text as the most recent one and tells which texts were given up for it. */
    method Store(id: string, text: string) returns (released: seq<string>)
      requires Valid() && 2 * |text| <= LIMIT
      modifies this
      ensures Valid() && bytes <= LIMIT && id in texts && texts[id] == text
      ensures released + recent == Without(old(recent), id) + [id] && recent != []
      ensures |released| == Evicted(old(texts), Without(old(recent), id), LIMIT - 2 * |text|)
      ensures forall x :: x in recent && x != id ==> x in old(texts) && texts[x] == old(texts)[x]
    {
      WithoutMeans(texts, recent, id);
      bytes := bytes - Size(texts, id);
      recent := Without(recent, id);
      hide Evicted, Without, Total;
      ghost var others := recent;
      released := MakeRoom(2 * |text|);
      Members(released, recent);
      Regroup(released, recent, [id]);
      Insert(id, text);
    }

    method Insert(id: string, text: string)
      requires Listed() && id !in recent && (forall x :: x in texts ==> x in recent || x == id)
      modifies this
      ensures Valid() && bytes == old(bytes) + 2 * |text| && recent == old(recent) + [id] && texts == old(texts)[id := text]
    {
      bytes := bytes + 2 * |text|;
      texts := texts[id := text];
      TotalSame(old(texts), texts, recent);
      TotalConcat(texts, recent, [id]);
      assert [id][1..] == [];
      DistinctNext(recent, id);
      recent := recent + [id];
    }

    /** A text is used: it becomes the most recent one. */
    method Use(id: string)
      requires Valid() && id in texts
      modifies this`recent
      ensures Valid() && recent == Without(old(recent), id) + [id]
    {
      WithoutMeans(texts, recent, id);
      TotalConcat(texts, Without(recent, id), [id]);
      assert [id][1..] == [];
      DistinctNext(Without(recent, id), id);
      recent := Without(recent, id) + [id];
    }

    /** A text is given up on request. */
    method Release(id: string)
      requires Valid()
      modifies this
      ensures Valid() && texts == old(texts) - {id} && recent == Without(old(recent), id)
    {
      WithoutMeans(texts, recent, id);
      bytes := bytes - Size(texts, id);
      ghost var before := texts;
      texts := texts - {id};
      recent := Without(recent, id);
      TotalSame(before, texts, recent);
    }
  }
}
