// router.c: the IPv4 routes, kept in descending order so that looking one up can
// stop early: what the search finds, and exactly when stopping early is wrong.

module RouteTable {
  import opened Bytes

  // (ip >> bits) << bits
  function Clear(ip: nat, bits: nat): (n: nat)
    ensures n <= ip
    decreases bits
  {
    if bits == 0 then ip else 2 * Clear(ip / 2, bits - 1)
  }

  // A shift down and up again clears all bits below.
  lemma {:induction false} ClearIsBlock(ip: nat, bits: nat)
    ensures Clear(ip, bits) <= ip < Clear(ip, bits) + Pow2(bits)
    decreases bits
  {
    if bits > 0 {
      ClearIsBlock(ip / 2, bits - 1);
    }
  }

  lemma {:induction false} ClearMonotone(x: nat, y: nat, bits: nat)
    requires x <= y
    ensures Clear(x, bits) <= Clear(y, bits)
    decreases bits
  {
    if bits > 0 {
      ClearMonotone(x / 2, y / 2, bits - 1);
    }
  }

  lemma {:induction false} ClearTwice(ip: nat, fewer: nat, bits: nat)
    requires fewer <= bits
    ensures Clear(Clear(ip, fewer), bits) == Clear(ip, bits) <= Clear(ip, fewer)
    decreases bits
  {
    if fewer > 0 {
      assert 2 * Clear(ip / 2, fewer - 1) / 2 == Clear(ip / 2, fewer - 1);
      ClearTwice(ip / 2, fewer - 1, bits - 1);
    }
  }

  type Mask = m: nat | 1 <= m <= 32 witness 32

  function Network(ip: nat, mask: Mask): nat { Clear(ip, 32 - mask) }

  datatype Route = Route(ip4: nat, mask: Mask, tun: nat)

  predicate Normal(r: Route) { Network(r.ip4, r.mask) == r.ip4 }

  // ip4_addr_match
  predicate Covers(r: Route, ip: nat) { r.ip4 == Network(ip, r.mask) }

  // The order of the list.
  predicate Before(r: Route, s: Route) { r.ip4 > s.ip4 || (r.ip4 == s.ip4 && r.mask > s.mask) }

  ghost predicate Sorted(q: seq<Route>) {
    && (forall i :: 0 <= i < |q| ==> Normal(q[i]))
    && (forall i, j :: 0 <= i < j < |q| ==> Before(q[i], q[j]))
  }

  // Longer prefixes of an address have higher networks.
  lemma LongerIsHigher(ip: nat, short: Mask, long: Mask)
    requires short <= long
    ensures Network(ip, short) <= Network(ip, long)
    ensures Network(Network(ip, long), short) == Network(ip, short)
  {
    ClearTwice(ip, 32 - long, 32 - short);
  }

  // The search of send4.
  datatype Choice = NoRoute | Via(route: Route)

  function Scan(q: seq<Route>, ip: nat): Choice {
    if q == [] then NoRoute
    else if Covers(q[0], ip) then Via(q[0])
    else if q[0].ip4 < ip then NoRoute
    else Scan(q[1..], ip)
  }

  lemma SortedTail(q: seq<Route>)
    requires Sorted(q) && q != []
    ensures Sorted(q[1..]) && forall r :: r in q[1..] ==> Before(q[0], r) && Normal(r)
  {
  }

  // Of two routes for an address, the one that stands first is the longer one.
  lemma FirstIsLonger(r: Route, s: Route, ip: nat)
    requires Covers(r, ip) && Covers(s, ip) && Before(r, s)
    ensures s.mask < r.mask
  {
    if r.mask <= s.mask {
      LongerIsHigher(ip, r.mask, s.mask);
    }
  }

  // Whatever route is found is the longest prefix of the address in the table.
  lemma {:induction false} FoundIsLongest(q: seq<Route>, ip: nat)
    requires Sorted(q) && Scan(q, ip).Via?
    ensures Scan(q, ip).route in q && Covers(Scan(q, ip).route, ip)
    ensures forall s :: s in q && Covers(s, ip) ==> s == Scan(q, ip).route || s.mask < Scan(q, ip).route.mask
  {
    SortedTail(q);
    if Covers(q[0], ip) {
      forall s | s in q[1..] && Covers(s, ip) ensures s.mask < q[0].mask {
        FirstIsLonger(q[0], s, ip);
      }
    } else {
      FoundIsLongest(q[1..], ip);
    }
  }

  // A route that stands in the way of b: it begins inside b, below the address, and
  // does not reach up to it.
  predicate Hides(r: Route, b: Route, ip: nat) { b.ip4 <= r.ip4 < ip && !Covers(r, ip) }

  // Clear of such routes, a route for the address is found: stopping early goes
  // wrong just where every route for the address has one inside that lies below.
  ghost predicate Visible(q: seq<Route>, b: Route, ip: nat) {
    b in q && Covers(b, ip) && forall r :: r in q ==> !Hides(r, b, ip)
  }

  lemma {:induction false} VisibleIsFound(q: seq<Route>, b: Route, ip: nat)
    requires Sorted(q) && Visible(q, b, ip)
    ensures Scan(q, ip).Via?
  {
    SortedTail(q);
    if !Covers(q[0], ip) {
      assert b in q[1..];
      assert !Hides(q[0], b, ip);
      VisibleIsFound(q[1..], b, ip);
    }
  }

  lemma {:induction false} FoundIsVisible(q: seq<Route>, ip: nat)
    requires Sorted(q) && Scan(q, ip).Via?
    ensures Visible(q, Scan(q, ip).route, ip)
  {
    SortedTail(q);
    var b := Scan(q, ip).route;
    if Covers(q[0], ip) {
      forall r | r in q ensures !Hides(r, b, ip) {
        if r != b && r.ip4 == b.ip4 {
          LongerIsHigher(ip, r.mask, b.mask);
        }
      }
    } else {
      FoundIsVisible(q[1..], ip);
    }
  }

  lemma FoundExactly(q: seq<Route>, ip: nat)
    requires Sorted(q)
    ensures Scan(q, ip).Via? <==> exists b :: Visible(q, b, ip)
  {
    if Scan(q, ip).Via? {
      FoundIsVisible(q, ip);
    }
    if b :| Visible(q, b, ip) {
      VisibleIsFound(q, b, ip);
    }
  }

  // No prefix of the table inside another.
  ghost predicate Disjoint(q: seq<Route>) {
    forall r, s :: r in q && s in q && r != s ==> !Covers(r, s.ip4)
  }

  // Then the search never misses.
  lemma DisjointIsComplete(q: seq<Route>, b: Route, ip: nat)
    requires Sorted(q) && Disjoint(q) && b in q && Covers(b, ip)
    ensures Scan(q, ip) == Via(b)
  {
    forall r | r in q ensures !Hides(r, b, ip) {
      if Hides(r, b, ip) {
        var i :| 0 <= i < |q| && q[i] == b;
        ClearMonotone(b.ip4, r.ip4, 32 - b.mask);
        ClearMonotone(r.ip4, ip, 32 - b.mask);
        assert false;
      }
    }
    VisibleIsFound(q, b, ip);
    FoundIsLongest(q, ip);
    var f := Scan(q, ip).route;
    if f != b {
      LongerIsHigher(ip, b.mask, f.mask);
      assert Covers(b, f.ip4);
    }
  }

  // With 10.1.0.0/16 in the table, 10.0.0.0/8 is not found for 10.2.0.1.
  lemma NestedCanBeMissed()
    ensures var q := [Route(0x0A01_0000, 16, 1), Route(0x0A00_0000, 8, 0)];
            Sorted(q) && Covers(q[1], 0x0A02_0001) && Scan(q, 0x0A02_0001) == NoRoute
  {
    assert Pow2(8) == 0x100 && Pow2(16) == 0x1_0000 && Pow2(24) == 0x100_0000;
    ClearWide(0x0A01_0000, 16, 0x0A01);
    ClearWide(0x0A00_0000, 24, 0x0A);
    ClearWide(0x0A02_0001, 16, 0x0A02);
    ClearWide(0x0A02_0001, 24, 0x0A);
  }

  lemma {:induction false} ClearWide(ip: nat, bits: nat, high: nat)
    requires high * Pow2(bits) <= ip < (high + 1) * Pow2(bits)
    ensures Clear(ip, bits) == high * Pow2(bits)
    decreases bits
  {
    if bits > 0 {
      ClearWide(ip / 2, bits - 1, high);
    } else {
      assert Pow2(0) == 1;
    }
  }

  // route4: a new route in its place, or in place of the one with the same prefix.
  function Insert(q: seq<Route>, r: Route): seq<Route> {
    if q == [] then [r]
    else if Before(r, q[0]) then [r] + q
    else if r.ip4 == q[0].ip4 && r.mask == q[0].mask then [r] + q[1..]
    else [q[0]] + Insert(q[1..], r)
  }

  predicate SamePrefix(r: Route, s: Route) { r.ip4 == s.ip4 && r.mask == s.mask }

  lemma {:induction false} InsertIsAddition(q: seq<Route>, r: Route)
    requires Sorted(q) && Normal(r)
    ensures Sorted(Insert(q, r))
    ensures forall s :: s in Insert(q, r) <==> s == r || (s in q && !SamePrefix(s, r))
  {
    if q != [] {
      SortedTail(q);
      if Before(r, q[0]) {
      } else if SamePrefix(r, q[0]) {
      } else {
        InsertIsAddition(q[1..], r);
        forall s | s in Insert(q[1..], r) ensures Before(q[0], s) {
        }
      }
    }
  }

  // unroute4: the first route with that very address goes, whatever its mask.
  function Remove(q: seq<Route>, ip: nat): seq<Route> {
    if q == [] then []
    else if q[0].ip4 == ip then q[1..]
    else if q[0].ip4 < ip then q
    else [q[0]] + Remove(q[1..], ip)
  }

  // The route that goes is the one with the longest mask at that address.
  ghost predicate Topmost(q: seq<Route>, r: Route) {
    r in q && forall s :: s in q && s.ip4 == r.ip4 ==> s.mask <= r.mask
  }

  lemma {:induction false} RemoveTakesTopmost(q: seq<Route>, ip: nat)
    requires Sorted(q)
    ensures Sorted(Remove(q, ip))
    ensures forall s :: s in Remove(q, ip) <==> s in q && !(s.ip4 == ip && Topmost(q, s))
  {
    if q != [] {
      SortedTail(q);
      if q[0].ip4 > ip {
        RemoveTakesTopmost(q[1..], ip);
        forall s: Route ensures s.ip4 == ip && s in q[1..] ==> (Topmost(q, s) <==> Topmost(q[1..], s)) {
        }
      }
    }
  }

  // So unroute4 takes back just the route asked for if and only if the topmost route
  // at that address, if there is any, has the mask asked for.
  lemma RemoveIsExact(q: seq<Route>, ip: nat, mask: Mask)
    requires Sorted(q)
    ensures (forall s :: s in Remove(q, ip) <==> s in q && !(s.ip4 == ip && s.mask == mask))
            <==> (forall s :: s in q && s.ip4 == ip && Topmost(q, s) ==> s.mask == mask)
  {
    RemoveTakesTopmost(q, ip);
    if forall s :: s in q && s.ip4 == ip && Topmost(q, s) ==> s.mask == mask {
      forall s | s in q && s.ip4 == ip && s.mask == mask ensures Topmost(q, s) {
        var t := TopmostOf(q, s);
        PrefixIsKey(q, s, t);
      }
    }
  }

  // With 10.0.0.0/16 and 10.0.0.0/8 in the table, taking back the latter takes the former.
  lemma UnrouteTakesAnother()
    ensures var q := [Route(0x0A00_0000, 16, 1), Route(0x0A00_0000, 8, 0)];
            && Sorted(q) && Remove(q, 0x0A00_0000) == [q[1]]
            && !(forall s :: s in Remove(q, 0x0A00_0000) <==> s in q && !(s.ip4 == 0x0A00_0000 && s.mask == 8))
  {
    assert Pow2(8) == 0x100 && Pow2(16) == 0x1_0000 && Pow2(24) == 0x100_0000;
    ClearWide(0x0A00_0000, 16, 0x0A00);
    ClearWide(0x0A00_0000, 24, 0x0A);
    var q := [Route(0x0A00_0000, 16, 1), Route(0x0A00_0000, 8, 0)];
    assert q[0] in q && q[0] !in Remove(q, 0x0A00_0000);
  }

  // And 10.0.0.1/8, which is listed as 10.0.0.0/8, is not taken back at all.
  lemma HostBitsStay(tun: nat)
    ensures var q := Insert([], NewRoute(0x0A00_0001, 8, tun)); q != [] && Remove(q, 0x0A00_0001) == q
  {
    assert Pow2(8) == 0x100 && Pow2(16) == 0x1_0000 && Pow2(24) == 0x100_0000;
    ClearWide(0x0A00_0001, 24, 0x0A);
  }

  // unroute4 takes back a new route, for the address it was asked for with, if and only
  // if the address has no bits below the mask and no longer route begins there.
  lemma UnrouteUndoesRoute(q: seq<Route>, ip: nat, mask: nat, tun: nat)
    requires Sorted(q) && mask >= 1
    requires forall s :: s in q ==> !SamePrefix(s, NewRoute(ip, mask, tun))
    ensures (forall s :: s in Remove(Insert(q, NewRoute(ip, mask, tun)), ip) <==> s in q)
            <==> Network(ip, Capped(mask)) == ip && forall s :: s in q && s.ip4 == ip ==> s.mask < Capped(mask)
  {
    var r := NewRoute(ip, mask, tun);
    var t := Insert(q, r);
    NewIsNormal(ip, mask, tun);
    InsertIsAddition(q, r);
    RemoveTakesTopmost(t, ip);
    if Network(ip, Capped(mask)) == ip && forall s :: s in q && s.ip4 == ip ==> s.mask < Capped(mask) {
      assert Topmost(t, r);
    }
    if forall s :: s in Remove(t, ip) <==> s in q {
      assert r in t && r !in q && r !in Remove(t, ip);
      assert r.ip4 == ip && Topmost(t, r);
    }
  }

  lemma {:induction false} TopmostOf(q: seq<Route>, s: Route) returns (t: Route)
    requires Sorted(q) && s in q
    ensures t.ip4 == s.ip4 && Topmost(q, t)
  {
    SortedTail(q);
    if q[0].ip4 == s.ip4 {
      t := q[0];
    } else {
      t := TopmostOf(q[1..], s);
    }
  }

  lemma PrefixIsKey(q: seq<Route>, s: Route, t: Route)
    requires Sorted(q) && s in q && t in q && SamePrefix(s, t)
    ensures s == t
  {
    var i :| 0 <= i < |q| && q[i] == s;
    var j :| 0 <= j < |q| && q[j] == t;
    assert i < j ==> Before(q[i], q[j]);
    assert j < i ==> Before(q[j], q[i]);
  }

  // unroute: every route of a tunnel goes, and the others stay as they were.
  function Without(q: seq<Route>, tun: nat): seq<Route> {
    if q == [] then []
    else if q[0].tun == tun then Without(q[1..], tun)
    else [q[0]] + Without(q[1..], tun)
  }

  lemma {:induction false} WithoutTakesTunnel(q: seq<Route>, tun: nat)
    requires Sorted(q)
    ensures Sorted(Without(q, tun))
    ensures forall s :: s in Without(q, tun) <==> s in q && s.tun != tun
  {
    if q != [] {
      SortedTail(q);
      WithoutTakesTunnel(q[1..], tun);
    }
  }

  // The changes, and what any run of them makes of an empty table.
  datatype Change = Add(ip: nat, mask: nat, tun: nat) | Delete(ip: nat) | Drop(tun: nat)

  function Capped(mask: nat): Mask
    requires mask >= 1
  {
    if mask > 32 then 32 else mask
  }

  function NewRoute(ip: nat, mask: nat, tun: nat): Route
    requires mask >= 1
  {
    Route(Network(ip, Capped(mask)), Capped(mask), tun)
  }

  predicate Usual(c: Change) { c.Add? ==> c.mask >= 1 }

  function Changed(q: seq<Route>, c: Change): seq<Route>
    requires Usual(c)
  {
    match c
    case Add(ip, mask, tun) => Insert(q, NewRoute(ip, mask, tun))
    case Delete(ip) => Remove(q, ip)
    case Drop(tun) => Without(q, tun)
  }

  function Play(q: seq<Route>, cs: seq<Change>): seq<Route>
    requires forall i :: 0 <= i < |cs| ==> Usual(cs[i])
    decreases |cs|
  {
    if cs == [] then q else Play(Changed(q, cs[0]), cs[1..])
  }

  lemma NewIsNormal(ip: nat, mask: nat, tun: nat)
    requires mask >= 1
    ensures Normal(NewRoute(ip, mask, tun))
  {
    LongerIsHigher(ip, Capped(mask), Capped(mask));
  }

  lemma {:induction false} PlayKeepsSorted(q: seq<Route>, cs: seq<Change>)
    requires Sorted(q) && forall i :: 0 <= i < |cs| ==> Usual(cs[i])
    ensures Sorted(Play(q, cs))
    decreases |cs|
  {
    if cs != [] {
      match cs[0] {
        case Add(ip, mask, tun) =>
          NewIsNormal(ip, mask, tun);
          InsertIsAddition(q, NewRoute(ip, mask, tun));
        case Delete(ip) => RemoveTakesTopmost(q, ip);
        case Drop(tun) => WithoutTakesTunnel(q, tun);
      }
      PlayKeepsSorted(Changed(q, cs[0]), cs[1..]);
    }
  }

  // In every run, the route chosen for an address is its longest prefix in the table,
  // and one is chosen just if some route for it is not hidden by another.
  lemma EveryRunSelectsLongest(cs: seq<Change>, ip: nat)
    requires forall i :: 0 <= i < |cs| ==> Usual(cs[i])
    ensures var q := Play([], cs);
            && (Scan(q, ip).Via? <==> exists b :: Visible(q, b, ip))
            && (Scan(q, ip).Via? ==>
                  && Covers(Scan(q, ip).route, ip)
                  && forall s :: s in q && Covers(s, ip) ==> s.mask <= Scan(q, ip).route.mask)
            && (Disjoint(q) ==> (Scan(q, ip).Via? <==> exists b :: b in q && Covers(b, ip)))
  {
    var q := Play([], cs);
    PlayKeepsSorted([], cs);
    FoundExactly(q, ip);
    if Scan(q, ip).Via? {
      FoundIsLongest(q, ip);
    }
    if b :| Disjoint(q) && b in q && Covers(b, ip) {
      DisjointIsComplete(q, b, ip);
    }
  }
}

module Router {
  import opened RouteTable

  class Link {
    var ip4: nat
    var mask: Mask
    var tun: nat
    var next: Link?

    constructor (r: Route)
      ensures ip4 == r.ip4 && mask == r.mask && tun == r.tun && next == null
    {
      ip4, mask, tun, next := r.ip4, r.mask, r.tun, null;
    }

    function Route(): Route
      reads this
    {
      RouteTable.Route(ip4, mask, tun)
    }
  }

  datatype Tunnel = NoTunnel | Tunnel(number: nat)

  class Routes {
    var head: Link?
    var default4: Tunnel
    ghost var links: seq<Link>
    ghost var routes: seq<Route>

    ghost predicate Linked()
      reads this, links
    {
      && (head == if links == [] then null else links[0])
      && (forall i {:trigger links[i].next} ::
            0 <= i < |links| ==> links[i].next == if i + 1 < |links| then links[i+1] else null)
      && (forall i, j :: 0 <= i < j < |links| ==> links[i] != links[j])
    }

    ghost predicate Mirrored()
      reads this, links
    {
      Linked() && |routes| == |links| && forall i :: 0 <= i < |links| ==> links[i].Route() == routes[i]
    }

    ghost predicate Valid()
      reads this, links
    {
      Mirrored() && Sorted(routes)
    }

    constructor ()
      ensures Valid() && routes == [] && default4 == NoTunnel
    {
      head, default4, links, routes := null, NoTunnel, [], [];
    }

    // prev and curr stand at position i of the list.
    ghost predicate At(prev: Link?, curr: Link?, i: nat)
      reads this
    {
      && i <= |links| && curr == (if i == |links| then null else links[i])
      && prev == if i == 0 then null else links[i-1]
    }

    method Unlink(prev: Link?, curr: Link, next: Link?, ghost i: nat)
      requires Mirrored() && At(prev, curr, i) && next == curr.next
      modifies this`head, this`links, this`routes, prev
      ensures Mirrored()
      ensures links == old(links[..i] + links[i+1..]) && routes == old(routes[..i] + routes[i+1..])
    {
      if prev == null {
        head := next;
      } else {
        prev.next := next;
      }
      links, routes := links[..i] + links[i+1..], routes[..i] + routes[i+1..];
    }

    // The link goes in front of curr, which may be the end of the list.
    method LinkIn(link: Link, prev: Link?, curr: Link?, ghost i: nat)
      requires Mirrored() && At(prev, curr, i) && link !in links
      modifies this`head, this`links, this`routes, prev, link`next
      ensures Mirrored()
      ensures links == old(links[..i]) + [link] + old(links[i..])
      ensures routes == old(routes[..i]) + [old(link.Route())] + old(routes[i..])
    {
      link.next := curr;
      if prev == null {
        head := link;
      } else {
        prev.next := link;
      }
      links, routes := links[..i] + [link] + links[i..], routes[..i] + [link.Route()] + routes[i..];
    }

    method Replace(link: Link, prev: Link?, curr: Link, next: Link?, ghost i: nat)
      requires Mirrored() && At(prev, curr, i) && link !in links && next == curr.next
      modifies this`head, this`links, this`routes, prev, link`next
      ensures Mirrored()
      ensures links == old(links)[i := link] && routes == old(routes)[i := old(link.Route())]
    {
      link.next := next;
      if prev == null {
        head := link;
      } else {
        prev.next := link;
      }
      links, routes := links[i := link], routes[i := link.Route()];
    }

    // route4
    method Route4(ip: nat, mask: nat, tun: nat)
      requires Valid() && mask >= 1
      modifies this`head, this`links, this`routes, links
      ensures Valid() && fresh(set l | l in links && l !in old(links))
      ensures routes == Insert(old(routes), NewRoute(ip, mask, tun))
    {
      NewIsNormal(ip, mask, tun);
      AddRoute(NewRoute(ip, mask, tun));
    }

    method AddRoute(r: Route)
      requires Valid() && Normal(r)
      modifies this`head, this`links, this`routes, links
      ensures Valid() && fresh(set l | l in links && l !in old(links))
      ensures routes == Insert(old(routes), r)
    {
      InsertIsAddition(routes, r);
      var link := new Link(r);
      if head == null {
        LinkIn(link, null, null, 0);
        return;
      }
      var prev, curr, i := Seek(link);
      InsertThere(routes, i, r);
      Place(link, prev, curr, i);
    }

    // The walk of route4, up to the link it acts on.
    method Seek(link: Link) returns (prev: Link?, curr: Link, ghost i: nat)
      requires Mirrored() && links != []
      ensures At(prev, curr, i) && i < |links|
      ensures forall k :: 0 <= k < i ==> Before(routes[k], link.Route())
      ensures Before(routes[i], link.Route()) ==> i == |links| - 1
    {
      prev, curr, i := null, head, 0;
      while true
        invariant At(prev, curr, i) && i < |links|
        invariant forall k :: 0 <= k < i ==> Before(routes[k], link.Route())
        decreases |links| - i
      {
        var next := curr.next;
        if curr.ip4 < link.ip4 || (curr.ip4 == link.ip4 && curr.mask < link.mask) {
          return;
        } else if curr.ip4 == link.ip4 && curr.mask == link.mask {
          return;
        } else if next == null {
          return;
        }
        prev := curr;
        curr := next;
        i := i + 1;
      }
    }

    method Place(link: Link, prev: Link?, curr: Link, ghost i: nat)
      requires Mirrored() && At(prev, curr, i) && link !in links
      modifies this`head, this`links, this`routes, links, link`next
      ensures Mirrored() && forall l :: l in links ==> l == link || l in old(links)
      ensures routes == old(routes[..i]) + if Before(old(link.Route()), old(routes[i]))
                then [old(link.Route())] + old(routes[i..])
                          else if SamePrefix(old(link.Route()), old(routes[i]))
                              then [old(link.Route())] + old(routes[i+1..])
                          else [old(routes[i]), old(link.Route())] + old(routes[i+1..])
    {
      var next := curr.next;
      if curr.ip4 < link.ip4 || (curr.ip4 == link.ip4 && curr.mask < link.mask) {
        LinkIn(link, prev, curr, i);
      } else if curr.ip4 == link.ip4 && curr.mask == link.mask {
        Replace(link, prev, curr, next, i);
      } else {
        LinkIn(link, curr, next, i + 1);
      }
    }

    // unroute4
    method Unroute4(ip: nat)
      requires Valid()
      modifies this`head, this`links, this`routes, links
      ensures Valid() && forall l :: l in links ==> l in old(links)
      ensures routes == Remove(old(routes), ip)
    {
      RemoveKeepsSorted(routes, ip);
      var prev, curr, i := SeekAddress(ip);
      RemoveThere(routes, i, ip);
      if curr != null && curr.ip4 == ip {
        Unlink(prev, curr, curr.next, i);
      }
    }

    method SeekAddress(ip: nat) returns (prev: Link?, curr: Link?, ghost i: nat)
      requires Mirrored()
      ensures At(prev, curr, i)
      ensures forall k :: 0 <= k < i ==> routes[k].ip4 > ip
      ensures i < |links| ==> routes[i].ip4 <= ip
    {
      prev, curr, i := null, head, 0;
      while curr != null
        invariant At(prev, curr, i)
        invariant forall k :: 0 <= k < i ==> routes[k].ip4 > ip
        decreases |links| - i
      {
        var next := curr.next;
        if curr.ip4 == ip {
          return;
        } else if curr.ip4 < ip {
          return;
        }
        prev := curr;
        curr := next;
        i := i + 1;
      }
    }

    // unroute
    method Unroute(tun: nat)
      requires Valid()
      modifies this`head, this`links, this`routes, this`default4, links
      ensures Valid() && forall l :: l in links ==> l in old(links)
      ensures routes == Without(old(routes), tun)
      ensures default4 == if old(default4) == Tunnel(tun) then NoTunnel else old(default4)
    {
      WithoutTakesTunnel(routes, tun);
      RemoveTunnel(tun);
      if default4 == Tunnel(tun) {
        default4 := NoTunnel;
      }
    }

    method RemoveTunnel(tun: nat)
      requires Mirrored()
      modifies this`head, this`links, this`routes, links
      ensures Mirrored() && forall l :: l in links ==> l in old(links)
      ensures routes == Without(old(routes), tun)
    {
      var curr, prev: Link? := head, null;
      ghost var i: nat := 0;
      while curr != null
        invariant Mirrored() && At(prev, curr, i)
        invariant forall l :: l in links ==> l in old(links)
        invariant Remains(old(routes), routes, i, tun)
        decreases |links| - i
      {
        var next := curr.next;
        RemainsStep(old(routes), routes, i, tun);
        if curr.tun == tun {
          assert prev != null ==> prev in links;
          Unlink(prev, curr, next, i);
        } else {
          prev := curr;
          i := i + 1;
        }
        curr := next;
      }
    }

    // default4
    method Default4(tun: nat)
      modifies this`default4
      ensures default4 == Tunnel(tun)
    {
      default4 := Tunnel(tun);
    }

    // send4, where it looks for the way: the route found, or else the default one.
    method Select(ip: nat) returns (t: Tunnel)
      requires Valid()
      ensures t == match Scan(routes, ip) case Via(r) => Tunnel(r.tun) case NoRoute => default4
    {
      t := NoTunnel;
      var curr := head;
      ghost var i: nat := 0;
      while curr != null
        invariant i <= |links| && curr == if i == |links| then null else links[i]
        invariant t == NoTunnel && Scan(routes[i..], ip) == Scan(routes, ip)
        decreases |links| - i
      {
        ScanAt(routes, i, ip);
        if curr.ip4 == Network(ip, curr.mask) {
          t := Tunnel(curr.tun);
          break;
        } else if curr.ip4 < ip {
          break;
        }
        curr := curr.next;
        i := i + 1;
      }
      if t == NoTunnel {
        t := default4;
      }
    }
  }

  lemma {:induction false} InsertThere(q: seq<Route>, i: nat, r: Route)
    requires i < |q| && forall k :: 0 <= k < i ==> Before(q[k], r)
    requires Before(q[i], r) ==> i == |q| - 1
    ensures Insert(q, r) == q[..i] + if Before(r, q[i]) then [r] + q[i..]
                                     else if SamePrefix(r, q[i]) then [r] + q[i+1..]
                                     else [q[i], r] + q[i+1..]
  {
    if i > 0 {
      InsertThere(q[1..], i - 1, r);
      assert q[1..][i-1] == q[i] && q[1..][i-1..] == q[i..] && q[1..][i..] == q[i+1..];
      assert q[..i] == [q[0]] + q[1..][..i-1];
    } else if Before(q[0], r) {
      assert q[1..] == [] && Insert(q[1..], r) == [r];
    }
  }

  lemma RemoveKeepsSorted(q: seq<Route>, ip: nat)
    requires Sorted(q)
    ensures Sorted(Remove(q, ip))
  {
    RemoveTakesTopmost(q, ip);
  }

  lemma {:induction false} RemoveThere(q: seq<Route>, i: nat, ip: nat)
    requires i <= |q| && forall k :: 0 <= k < i ==> q[k].ip4 > ip
    requires i < |q| ==> q[i].ip4 <= ip
    ensures Remove(q, ip) == if i < |q| && q[i].ip4 == ip then q[..i] + q[i+1..] else q
  {
    if i > 0 {
      RemoveThere(q[1..], i - 1, ip);
      assert i < |q| ==> q[1..][i-1] == q[i] && q[1..][i..] == q[i+1..];
      assert q[..i] == [q[0]] + q[1..][..i-1];
    }
  }

  // Of the list q, what stands in front of i in now is done with.
  ghost predicate Remains(q: seq<Route>, now: seq<Route>, i: nat, tun: nat) {
    i <= |now| && forall t :: t == tun ==> Without(q, t) == now[..i] + Without(now[i..], t)
  }

  lemma RemainsStep(q: seq<Route>, now: seq<Route>, i: nat, tun: nat)
    requires Remains(q, now, i, tun) && i < |now|
    ensures if now[i].tun == tun then Remains(q, now[..i] + now[i+1..], i, tun) else Remains(q, now, i + 1, tun)
  {
    assert Without(q, tun) == now[..i] + Without(now[i..], tun);
    assert now[i..][0] == now[i] && now[i..][1..] == now[i+1..];
    assert now[..i+1] == now[..i] + [now[i]];
    var less := now[..i] + now[i+1..];
    assert less[..i] == now[..i] && less[i..] == now[i+1..];
  }

  lemma ScanAt(q: seq<Route>, i: nat, ip: nat)
    requires i < |q|
    ensures Scan(q[i..], ip) == if Covers(q[i], ip) then Via(q[i]) else if q[i].ip4 < ip then NoRoute
              else Scan(q[i+1..], ip)
  {
    assert q[i..][0] == q[i] && q[i..][1..] == q[i+1..];
  }
}
