/**
 * The TTL cache as it lies in memory (internal/ttlcache/ttlcache.go): a map from keys to the nodes
 * of a doubly linked ring, which lists the entries in insertion order.
 */
module TtlCacheObjects {
  import opened Wrappers
  import TtlCache

  class Node<V> {
    var entry: Option<TtlCache.Entry<V>>
    var prev: Node<V>
    var next: Node<V>

    /** A node linked to itself. */
    constructor (entry: Option<TtlCache.Entry<V>>)
      ensures this.entry == entry && prev == this && next == this
    {
      this.entry := entry;
      this.prev := this;
      this.next := this;
    }
  }

  /** ring lists the root, then the elements from oldest to newest; the last one links back to the root. */
  class List<V> {
    const root: Node<V>
    ghost var ring: seq<Node<V>>

    ghost predicate Valid()
      reads this, ring
    {
      && ring != [] && ring[0] == root
      && (forall i, j :: 0 <= i < j < |ring| ==> ring[i] != ring[j])
      && (forall i :: 0 <= i < |ring| - 1 ==> ring[i].next == ring[i + 1])
      && (forall i :: 1 <= i < |ring| ==> ring[i].prev == ring[i - 1])
      && ring[|ring| - 1].next == root
      && root.prev == ring[|ring| - 1]
    }

    constructor ()
      ensures Valid() && fresh(root) && ring == [root]
    {
      var r := new Node(None);
      root := r;
      ring := [r];
    }

    method Front() returns (n: Node<V>)
      requires Valid() && |ring| > 1
      ensures n == ring[1]
    {
      n := root.next;
    }

    method PushBack(n: Node<V>)
      requires Valid() && n !in ring
      modifies this`ring, n`prev, n`next, ring`prev, ring`next
      ensures Valid() && ring == old(ring) + [n]
    {
      var last := root.prev;
      n.prev := last;
      n.next := root;
      last.next := n;
      root.prev := n;
      ring := ring + [n];
    }

    method Remove(n: Node<V>, ghost p: nat)
      requires Valid() && 1 <= p < |ring| && ring[p] == n
      modifies this`ring, ring`prev, ring`next
      ensures Valid() && ring == TtlCache.Without(old(ring), p)
    {
      var before, after := n.prev, n.next;
      assert before == ring[p - 1] && after == if p + 1 < |ring| then ring[p + 1] else ring[0];
      before.next := after;
      after.prev := before;
      ghost var was := ring;
      ring := TtlCache.Without(ring, p);
      forall i | 0 <= i < |ring| - 1 ensures ring[i].next == ring[i + 1] {
        assert ring[i] == was[if i < p then i else i + 1];
      }
      forall i | 1 <= i < |ring| ensures ring[i].prev == ring[i - 1] {
        assert ring[i] == was[if i < p then i else i + 1];
      }
    }
  }

  class Cache<V> {
    const max: nat
    var items: map<string, Node<V>>
    const order: List<V>
    ghost var repr: set<Node<V>>

    ghost predicate Valid()
      reads this, order, order.ring
    {
      && 1 <= max
      && order.Valid()
      && (forall i :: 0 <= i < |order.ring| ==> order.ring[i] in repr)
      && (forall i :: 1 <= i < |order.ring| ==> Filed(order.ring[i]))
      && (forall key <- items :: items[key] in order.ring[1..] && Holds(items[key], key))
    }

    static ghost predicate Holds(n: Node<V>, key: string)
      reads n
    {
      n.entry.Some? && n.entry.value.key == key
    }

    ghost predicate Filed(n: Node<V>)
      reads this, n
    {
      n.entry.Some? && n.entry.value.key in items && items[n.entry.value.key] == n
    }

    ghost function Contents(): (s: seq<TtlCache.Entry<V>>)
      requires Valid()
      reads this, order, order.ring
      ensures |s| == |order.ring| - 1
      ensures forall i :: 0 <= i < |s| ==> order.ring[i + 1].entry == Some(s[i])
    {
      seq(|order.ring| - 1, i requires 0 <= i < |order.ring| - 1 && Valid() reads this, order, order.ring =>
        assert Filed(order.ring[i + 1]); order.ring[i + 1].entry.value)
    }

    constructor (max: nat)
      requires 1 <= max
      ensures Valid() && Contents() == [] && this.max == max && fresh(order) && fresh(repr)
    {
      this.max := max;
      items := map[];
      var o := new List();
      order := o;
      repr := {o.root};
    }

    /** The map finds exactly the key's place in the order list. */
    lemma Lookup(key: string)
      requires Valid()
      ensures TtlCache.Distinct(Contents())
      ensures key in items <==> TtlCache.Has(Contents(), key)
      ensures key in items ==> items[key] == order.ring[TtlCache.Pos(Contents(), key) + 1]
    {
      var s := Contents();
      forall i, j | 0 <= i < j < |s| ensures s[i].key != s[j].key {
        assert Filed(order.ring[i + 1]) && Filed(order.ring[j + 1]);
      }
      if key in items {
        assert Holds(items[key], key);
        var p :| 1 <= p < |order.ring| && order.ring[p] == items[key];
        TtlCache.PosIs(s, key, p - 1);
      } else {
        forall i | 0 <= i < |s| ensures s[i].key != key {
          assert Filed(order.ring[i + 1]);
        }
      }
    }

    /** The map and the list have the same size. */
    lemma SameSize()
      requires Valid()
      ensures |items| == |Contents()|
    {
      var s := Contents();
      Lookup("");
      TtlCache.KeysSize(s);
      forall key ensures key in items <==> key in TtlCache.Keys(s) {
        Lookup(key);
        TtlCache.KeysHas(s, key);
      }
      assert items.Keys == TtlCache.Keys(s);
    }

    /** Element p has been taken out of the ring and its key out of the map. */
    twostate predicate TakenOut(p: nat)
      requires old(Valid()) && p < |old(Contents())|
      reads this, order, order.ring, repr
    {
      && order.Valid() && repr == old(repr)
      && old(Filed(order.ring[p + 1]))
      && items == old(items) - {old(order.ring[p + 1].entry.value.key)}
      && order.ring == TtlCache.Without(old(order.ring), p + 1)
      && (forall m <- repr :: Same(m))
    }

    static twostate predicate Same(n: Node<V>)
      reads n
    {
      n.entry == old(n.entry)
    }

    twostate lemma RingStillFiled(p: nat)
      requires old(Valid()) && p < |old(Contents())| && TakenOut(p)
      ensures forall i :: 1 <= i < |order.ring| ==> Filed(order.ring[i])
    {
      var was := old(order.ring);
      forall i | 1 <= i < |order.ring| ensures Filed(order.ring[i]) {
        var j := if i < p + 1 then i else i + 1;
        assert order.ring[i] == was[j] && old(Filed(was[j])) && Same(order.ring[i]);
      }
    }

    twostate lemma MapStillFinds(p: nat)
      requires old(Valid()) && p < |old(Contents())| && TakenOut(p)
      ensures forall key <- items :: items[key] in order.ring[1..] && Holds(items[key], key)
    {
      var was := old(order.ring);
      forall key | key in items ensures items[key] in order.ring[1..] && Holds(items[key], key) {
        assert old(Holds(items[key], key));
        var j :| 1 <= j < |was| && was[j] == items[key];
        var i := if j < p + 1 then j else j - 1;
        assert order.ring[i] == items[key] && order.ring[i] == order.ring[1..][i - 1];
        assert Same(order.ring[i]);
      }
    }

    method Unlink(n: Node<V>, ghost p: nat)
      requires Valid() && p < |Contents()| && order.ring[p + 1] == n
      modifies this`items, order`ring, repr`prev, repr`next
      ensures TakenOut(p)
    {
      assert Filed(n);
      items := items - {n.entry.value.key};
      assert order.Valid();
      order.Remove(n, p + 1);
      assert forall m <- repr :: Same(m);
    }

    twostate lemma ContentsWithout(p: nat)
      requires old(Valid()) && p < |old(Contents())| && TakenOut(p) && Valid()
      ensures Contents() == TtlCache.Without(old(Contents()), p)
    {
      var was := old(order.ring);
      forall i | 0 <= i < |Contents()| ensures Contents()[i] == TtlCache.Without(old(Contents()), p)[i] {
        var j := if i < p then i else i + 1;
        assert order.ring[i + 1] == was[j + 1] && Same(order.ring[i + 1]);
      }
    }

    method Remove(n: Node<V>, ghost p: nat)
      requires Valid() && p < |Contents()| && order.ring[p + 1] == n
      modifies this`items, order`ring, repr`prev, repr`next
      ensures Valid() && Contents() == TtlCache.Without(old(Contents()), p)
    {
      Unlink(n, p);
      RingStillFiled(p);
      MapStillFinds(p);
      ContentsWithout(p);
    }

    method Get(key: string, now: int) returns (r: Option<V>)
      requires Valid()
      modifies this`items, order`ring, repr`prev, repr`next
      ensures Valid() && (Contents(), r) == TtlCache.Get(old(Contents()), key, now)
    {
      Lookup(key);
      if key !in items {
        return None;
      }
      var n := items[key];
      ghost var p := TtlCache.Pos(Contents(), key);
      if now >= n.entry.value.expires {
        Remove(n, p);
        return None;
      }
      return Some(n.entry.value.value);
    }

    method Set(key: string, value: V, now: int, ttl: int)
      requires Valid()
      modifies this`items, this`repr, order`ring, repr
      ensures Valid() && Contents() == TtlCache.Set(max, old(Contents()), key, value, now, ttl)
      ensures fresh(repr - old(repr))
    {
      Lookup(key);
      if key in items {
        Overwrite(items[key], TtlCache.Pos(Contents(), key), value, now + ttl);
        return;
      }
      MakeRoom();
      TtlCache.AbsentAfterEviction(old(Contents()), key, Contents());
      Lookup(key);
      Insert(TtlCache.Entry(key, value, now + ttl));
    }

    method Delete(key: string)
      requires Valid()
      modifies this`items, order`ring, repr`prev, repr`next
      ensures Valid() && Contents() == TtlCache.Delete(old(Contents()), key)
    {
      Lookup(key);
      if key in items {
        Remove(items[key], TtlCache.Pos(Contents(), key));
      }
    }

    method Overwrite(n: Node<V>, ghost p: nat, value: V, expires: int)
      requires Valid() && p < |Contents()| && order.ring[p + 1] == n
      modifies n`entry
      ensures Valid()
      ensures Contents() == old(Contents())[p := TtlCache.Entry(old(Contents()[p].key), value, expires)]
    {
      Rewrite(n, p, value, expires);
      RewrittenStaysFiled(p);
      RewrittenContents(p);
    }

    method Rewrite(n: Node<V>, ghost p: nat, value: V, expires: int)
      requires Valid() && p < |Contents()| && order.ring[p + 1] == n
      modifies n`entry
      ensures Rewritten(p) && n.entry == Some(TtlCache.Entry(old(Contents()[p].key), value, expires))
    {
      assert Filed(n);
      n.entry := Some(n.entry.value.(value := value, expires := expires));
    }

    /** Element p holds another value under the key it had; everything else is as before. */
    twostate predicate Rewritten(p: nat)
      requires old(Valid()) && p < |old(Contents())|
      reads this, order, order.ring, repr
    {
      && order.Valid() && order.ring == old(order.ring) && repr == old(repr) && items == old(items)
      && order.ring[p + 1].entry.Some? && order.ring[p + 1].entry.value.key == old(Contents())[p].key
      && forall m <- repr :: m != order.ring[p + 1] ==> Same(m)
    }

    twostate lemma RewrittenStaysFiled(p: nat)
      requires old(Valid()) && p < |old(Contents())| && Rewritten(p)
      ensures Valid()
    {
      forall i | 1 <= i < |order.ring| ensures Filed(order.ring[i]) {
        assert old(Filed(order.ring[i])) && (i != p + 1 ==> Same(order.ring[i]));
      }
      forall key | key in items ensures items[key] in order.ring[1..] && Holds(items[key], key) {
        assert old(Holds(items[key], key)) && (items[key] != order.ring[p + 1] ==> Same(items[key]));
      }
    }

    twostate lemma RewrittenContents(p: nat)
      requires old(Valid()) && p < |old(Contents())| && Rewritten(p) && Valid()
      ensures |Contents()| == |old(Contents())| && Contents() == old(Contents())[p := Contents()[p]]
    {
      forall i | 0 <= i < |Contents()| && i != p ensures Contents()[i] == old(Contents())[i] {
        assert order.ring[i + 1] != order.ring[p + 1] && Same(order.ring[i + 1]);
      }
    }

    /** n holds a new key, is last in the ring, and is filed under its key. */
    twostate predicate PutIn(new n: Node<V>, e: TtlCache.Entry<V>)
      requires old(Valid())
      reads this, order, order.ring, n, repr
    {
      && order.Valid() && repr == old(repr) + {n}
      && order.ring == old(order.ring) + [n] && n.entry == Some(e)
      && e.key !in old(items) && items == old(items)[e.key := n]
      && (forall m <- repr :: m in old(repr) ==> Same(m))
    }

    twostate lemma StillFiledWith(new n: Node<V>, e: TtlCache.Entry<V>)
      requires old(Valid()) && PutIn(n, e)
      ensures forall i :: 1 <= i < |order.ring| ==> Filed(order.ring[i])
    {
      var was := old(order.ring);
      forall i | 1 <= i < |order.ring| ensures Filed(order.ring[i]) {
        if i < |was| {
          assert order.ring[i] == was[i] && old(Filed(was[i])) && Same(order.ring[i]);
        }
      }
    }

    twostate lemma MapFindsWith(new n: Node<V>, e: TtlCache.Entry<V>)
      requires old(Valid()) && PutIn(n, e)
      ensures forall key <- items :: items[key] in order.ring[1..] && Holds(items[key], key)
    {
      var was := old(order.ring);
      forall key | key in items ensures items[key] in order.ring[1..] && Holds(items[key], key) {
        if key == e.key {
          assert order.ring[1..][|order.ring| - 2] == n;
        } else {
          assert old(Holds(items[key], key));
          var j :| 1 <= j < |was| && was[j] == items[key];
          assert order.ring[1..][j - 1] == items[key] && Same(order.ring[j]);
        }
      }
    }

    method Link(e: TtlCache.Entry<V>) returns (n: Node<V>)
      requires Valid() && e.key !in items
      modifies this`items, this`repr, order`ring, repr`prev, repr`next
      ensures fresh(n) && PutIn(n, e)
    {
      n := Append(e);
      items := items[e.key := n];
      repr := repr + {n};
    }

    method Append(e: TtlCache.Entry<V>) returns (n: Node<V>)
      requires Valid()
      modifies order`ring, repr`prev, repr`next
      ensures fresh(n) && n.entry == Some(e)
      ensures order.Valid() && order.ring == old(order.ring) + [n]
    {
      n := new Node(Some(e));
      order.PushBack(n);
    }

    twostate lemma ContentsPlus(new n: Node<V>, e: TtlCache.Entry<V>)
      requires old(Valid()) && PutIn(n, e) && Valid()
      ensures Contents() == old(Contents()) + [e]
    {
      forall i | 0 <= i < |Contents()| ensures Contents()[i] == (old(Contents()) + [e])[i] {
        if i < |Contents()| - 1 {
          assert order.ring[i + 1] == old(order.ring)[i + 1] && Same(order.ring[i + 1]);
        }
      }
    }

    method Insert(e: TtlCache.Entry<V>)
      requires Valid() && e.key !in items
      modifies this`items, this`repr, order`ring, repr`prev, repr`next
      ensures Valid() && Contents() == old(Contents()) + [e]
      ensures fresh(repr - old(repr))
    {
      var n := Link(e);
      StillFiledWith(n, e);
      MapFindsWith(n, e);
      ContentsPlus(n, e);
    }

    /** A full cache gives up its oldest entry. */
    method MakeRoom()
      requires Valid()
      modifies this`items, order`ring, repr`prev, repr`next
      ensures Valid()
      ensures Contents() == if |old(Contents())| >= max then old(Contents())[1..] else old(Contents())
    {
      SameSize();
      if |items| >= max {
        var front := order.Front();
        Remove(front, 0);
      }
    }
  }
}
