/** The canonical form of the engine state: orders sorted by id, as `serialize_state`
    writes them and `restore` reads them back (crates/atomic-execution/src/state_machine.rs). */
module Listing {
  import opened Types
  import opened Lifecycle

  /** The lexicographic order on strings. */
  predicate Precedes(a: string, b: string) {
    b != [] && (a == [] || a[0] < b[0] || (a[0] == b[0] && Precedes(a[1..], b[1..])))
  }

  lemma {:induction false} PrecedesTotal(a: string, b: string)
    ensures a == b || Precedes(a, b) || Precedes(b, a)
  {
    if a != [] && b != [] && a[0] == b[0] {
      PrecedesTotal(a[1..], b[1..]);
      assert a == [a[0]] + a[1..] && b == [b[0]] + b[1..];
    }
  }

  lemma {:induction false} PrecedesOneWay(a: string, b: string)
    ensures !(Precedes(a, b) && Precedes(b, a))
  {
    if a != [] && b != [] && a[0] == b[0] {
      PrecedesOneWay(a[1..], b[1..]);
    }
  }

  lemma {:induction false} PrecedesTransitive(a: string, b: string, c: string)
    requires Precedes(a, b) && Precedes(b, c)
    ensures Precedes(a, c)
  {
    if a != [] && a[0] == b[0] == c[0] {
      PrecedesTransitive(a[1..], b[1..], c[1..]);
    }
  }

  /** The first n characters agree, and then a ends, or has the smaller character. */
  predicate FirstDifference(a: string, b: string, n: nat) {
    n <= |a| && n < |b| && a[..n] == b[..n] && (n == |a| || a[n] < b[n])
  }

  lemma {:induction false} PrecedesExactly(a: string, b: string)
    ensures Precedes(a, b) <==> exists n: nat :: FirstDifference(a, b, n)
  {
    assert Precedes(a, b) && (a == [] || a[0] != b[0]) ==> FirstDifference(a, b, 0);
    if a != [] && b != [] && a[0] != b[0] {
      forall n: nat | 0 < n <= |a| && n <= |b| ensures a[..n] != b[..n] {
        assert a[..n][0] == a[0] && b[..n][0] == b[0];
      }
    } else if a != [] && b != [] {
      PrecedesExactly(a[1..], b[1..]);
      if n: nat :| FirstDifference(a[1..], b[1..], n) {
        assert a[..n + 1] == [a[0]] + a[1..][..n] && b[..n + 1] == [b[0]] + b[1..][..n];
        assert FirstDifference(a, b, n + 1);
      }
      if n: nat :| FirstDifference(a, b, n) {
        assert n > 0;
        assert a[1..][..n - 1] == a[..n][1..] && b[1..][..n - 1] == b[..n][1..];
        assert FirstDifference(a[1..], b[1..], n - 1);
      }
    }
  }

  predicate Sorted(l: seq<LiveOrder>) {
    forall i, j :: 0 <= i < j < |l| ==> Precedes(l[i].orderId, l[j].orderId)
  }

  /** `l` holds every order of the map once, in order of id. */
  ghost predicate IsListing(l: seq<LiveOrder>, orders: Orders) {
    && Sorted(l)
    && (forall o :: o in l ==> o.orderId in orders && orders[o.orderId] == o)
    && (forall id :: id in orders ==> orders[id] in l && orders[id].orderId == id)
  }

  lemma TailListing(l: seq<LiveOrder>, orders: Orders)
    requires IsListing(l, orders) && l != []
    ensures IsListing(l[1..], orders - {l[0].orderId})
  {
    var id0 := l[0].orderId;
    var tail := l[1..];
    forall o | o in tail ensures o in l && o.orderId != id0 {
      var k :| 0 <= k < |tail| && tail[k] == o;
      assert l[k + 1] == o;
      PrecedesOneWay(id0, o.orderId);
    }
    forall id | id in orders && id != id0 ensures orders[id] in tail {
      var k :| 0 <= k < |l| && l[k] == orders[id];
      assert tail[k - 1] == orders[id];
    }
  }

  lemma HeadIsListed(l: seq<LiveOrder>)
    requires l != []
    ensures l[0] in l
  {
  }

  lemma HeadIsLeast(l: seq<LiveOrder>, o: LiveOrder)
    requires Sorted(l) && o in l
    ensures o == l[0] || Precedes(l[0].orderId, o.orderId)
  {
  }

  /** Sorting by id leaves one possible listing, whatever order the map was read in. */
  lemma {:induction false} ListingUnique(a: seq<LiveOrder>, b: seq<LiveOrder>, orders: Orders)
    requires IsListing(a, orders) && IsListing(b, orders)
    ensures a == b
    decreases |a|
  {
    if a == [] {
      if b != [] {
        HeadIsListed(b);
        assert false;
      }
    } else {
      assert a[0] in a;
      assert a[0] in b;
      assert b[0] in b;
      assert b[0] in a;
      HeadIsLeast(a, b[0]);
      HeadIsLeast(b, a[0]);
      PrecedesOneWay(a[0].orderId, b[0].orderId);
      TailListing(a, orders);
      TailListing(b, orders);
      ListingUnique(a[1..], b[1..], orders - {a[0].orderId});
      assert a == [a[0]] + a[1..] && b == [b[0]] + b[1..];
    }
  }

  function Insert(l: seq<LiveOrder>, o: LiveOrder): (r: seq<LiveOrder>)
    ensures forall x :: x in r <==> x == o || x in l
  {
    if l == [] || Precedes(o.orderId, l[0].orderId) then [o] + l
    else
      var r := [l[0]] + Insert(l[1..], o);
      assert l == [l[0]] + l[1..];
      r
  }

  lemma {:induction false} InsertSorted(l: seq<LiveOrder>, o: LiveOrder)
    requires Sorted(l) && forall x :: x in l ==> x.orderId != o.orderId
    ensures Sorted(Insert(l, o))
  {
    if l != [] {
      if Precedes(o.orderId, l[0].orderId) {
        forall k | 0 <= k < |l| ensures Precedes(o.orderId, l[k].orderId) {
          if k > 0 { PrecedesTransitive(o.orderId, l[0].orderId, l[k].orderId); }
        }
      } else {
        PrecedesTotal(o.orderId, l[0].orderId);
        assert l[0] in l;
        var rest := Insert(l[1..], o);
        InsertSorted(l[1..], o);
        forall k | 0 <= k < |rest| ensures Precedes(l[0].orderId, rest[k].orderId) {
          assert rest[k] in rest;
          if rest[k] != o {
            assert rest[k] in l[1..];
            var j :| 0 <= j < |l[1..]| && l[1..][j] == rest[k];
            assert l[j + 1] == rest[k];
          }
        }
      }
    }
  }

  lemma InsertListing(l: seq<LiveOrder>, orders: Orders, o: LiveOrder)
    requires IsListing(l, orders) && o.orderId !in orders
    ensures IsListing(Insert(l, o), orders[o.orderId := o])
  {
    InsertSorted(l, o);
  }

  /** Inserting listed orders one by one, as `restore` does. */
  function Loaded(orders: Orders, l: seq<LiveOrder>): Orders
    decreases |l|
  {
    if l == [] then orders else Loaded(orders[l[0].orderId := l[0]], l[1..])
  }

  /** Reading a listing back gives the map that was listed. */
  lemma {:induction false} LoadedListing(base: Orders, l: seq<LiveOrder>, orders: Orders)
    requires IsListing(l, orders)
    ensures Loaded(base, l) == base + orders
    decreases |l|
  {
    if l == [] {
      assert orders.Keys == {} by {
        if !(forall id :: id !in orders) { assert false; }
      }
      assert base + orders == base;
    } else {
      TailListing(l, orders);
      var o := l[0];
      assert o in l;
      LoadedListing(base[o.orderId := o], l[1..], orders - {o.orderId});
      AddFirst(base, orders, o.orderId);
    }
  }

  lemma AddFirst(base: Orders, orders: Orders, id: string)
    requires id in orders
    ensures base[id := orders[id]] + (orders - {id}) == base + orders
  {
    var left, right := base[id := orders[id]] + (orders - {id}), base + orders;
    assert left.Keys == right.Keys;
    forall x | x in right ensures left[x] == right[x] {
    }
  }
}
