/** Route discovery: a registry of handlers keyed by `<METHOD>:<path>`,
    where the method is upper-cased so that lookups ignore its case, and
    which lists its keys in first-registration order. */
module Routing {
  import opened Common

  /** Upper-casing of one character (ASCII letters only). */
  function UpperChar(c: char): (u: char)
    ensures 'a' <= c <= 'z' ==> u as int == c as int - 32
    ensures !('a' <= c <= 'z') ==> u == c
  {
    if 'a' <= c <= 'z' then (c as int - 32) as char else c
  }

  /** `method.toUpperCase()`. */
  function Upper(s: string): (u: string)
    ensures |u| == |s|
    ensures forall i :: 0 <= i < |s| ==> u[i] == UpperChar(s[i])
  {
    if s == [] then [] else [UpperChar(s[0])] + Upper(s[1..])
  }

  /** Upper-casing twice is upper-casing once. */
  lemma UpperIdempotent(s: string)
    ensures Upper(Upper(s)) == Upper(s)
  {
    var u := Upper(s);
    assert forall i :: 0 <= i < |u| ==> UpperChar(u[i]) == u[i];
  }

  /** The separator between method and path in a key. */
  const Separator := ':'

  /** The registry key of a route: the upper-cased method, the separator,
      then the path. */
  function RouteKey(path: string, verb: string): (k: string)
    ensures |k| == |verb| + 1 + |path|
    ensures k[..|verb|] == Upper(verb) && k[|verb|] == Separator
    ensures k[|verb| + 1..] == path
  {
    Upper(verb) + [Separator] + path
  }

  /** Methods that differ only in letter case name the same route. */
  lemma RouteKeyIgnoresCase(path: string, m1: string, m2: string)
    requires Upper(m1) == Upper(m2)
    ensures RouteKey(path, m1) == RouteKey(path, m2)
  {
  }

  /** Keys of routes whose methods contain no separator determine the path
      and the upper-cased method; paths themselves may contain the
      separator (`/users/:id`). */
  lemma RouteKeyInjective(p1: string, m1: string, p2: string, m2: string)
    requires Separator !in m1 && Separator !in m2
    requires RouteKey(p1, m1) == RouteKey(p2, m2)
    ensures p1 == p2 && Upper(m1) == Upper(m2)
  {
    var k := RouteKey(p1, m1);
    var u1, u2 := Upper(m1), Upper(m2);
    assert Separator !in u1 by {
      forall i | 0 <= i < |u1| ensures u1[i] != Separator {
        assert u1[i] == UpperChar(m1[i]);
      }
    }
    assert Separator !in u2 by {
      forall i | 0 <= i < |u2| ensures u2[i] != Separator {
        assert u2[i] == UpperChar(m2[i]);
      }
    }
    assert k[|u1|] == Separator && k[|u2|] == Separator;
    assert |u1| == |u2|;
    assert u1 == k[..|u1|] == u2;
    assert p1 == k[|u1| + 1..] == p2;
  }

  /** The registry. `order` lists the keys in the order they were first
      registered, which is the iteration order of the underlying map. */
  class RouterDiscovery<H> {
    var routes: map<string, H>
    var order: seq<string>

    ghost predicate Valid()
      reads this
    {
      && (forall i, j :: 0 <= i < j < |order| ==> order[i] != order[j])
      && (forall k :: k in routes <==> k in order)
    }

    constructor ()
      ensures Valid()
      ensures routes == map[] && order == []
    {
      routes := map[];
      order := [];
    }

    /** `registerRoute`: binds the key to the handler, replacing an earlier
        binding in place; a new key goes to the end of the listing. */
    method RegisterRoute(path: string, verb: string, handler: H)
      requires Valid()
      modifies this
      ensures Valid()
      ensures routes == old(routes)[RouteKey(path, verb) := handler]
      ensures order == if RouteKey(path, verb) in old(routes) then old(order)
                       else old(order) + [RouteKey(path, verb)]
      ensures DiscoverRoute(path, verb) == Some(handler)
      ensures forall p, m :: RouteKey(p, m) != RouteKey(path, verb) ==>
                DiscoverRoute(p, m) == old(DiscoverRoute(p, m))
    {
      var key := Upper(verb) + [Separator] + path;
      if key !in routes {
        order := order + [key];
      }
      routes := routes[key := handler];
    }

    /** `discoverRoute`: the handler under the key, or `null`. */
    function DiscoverRoute(path: string, verb: string): (r: Option<H>)
      reads this
      ensures r.Some? <==> RouteKey(path, verb) in routes
      ensures r.Some? ==> r.value == routes[RouteKey(path, verb)]
    {
      var key := RouteKey(path, verb);
      if key in routes then Some(routes[key]) else None
    }

    /** `getAllRoutes`: every registered key exactly once, in first
        registration order. */
    function GetAllRoutes(): (keys: seq<string>)
      reads this
      requires Valid()
      ensures forall k :: k in keys <==> k in routes
      ensures forall i, j :: 0 <= i < j < |keys| ==> keys[i] != keys[j]
      ensures |keys| == |routes|
      ensures keys == order
    {
      DistinctCard(order, routes.Keys);
      order
    }
  }

  /** A duplicate-free listing of a set has the set's size. */
  lemma {:induction false} DistinctCard(s: seq<string>, keys: set<string>)
    requires forall i, j :: 0 <= i < j < |s| ==> s[i] != s[j]
    requires forall k :: k in keys <==> k in s
    ensures |s| == |keys|
  {
    if s != [] {
      var rest := keys - {s[0]};
      forall k ensures k in rest <==> k in s[1..] {
        if k in s[1..] {
          var j :| 0 <= j < |s[1..]| && s[1..][j] == k;
          assert s[j + 1] == k;
        }
      }
      DistinctCard(s[1..], rest);
    }
  }
}
