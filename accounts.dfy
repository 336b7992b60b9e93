/**
 * The custom user model of the social-media API (accounts/models.py):
 * a user record and the directed `following` relation with its reverse, `followers`.
 */
module Accounts {
  import opened Outcomes

  type UserId = nat

  /** A user row; credentials live with the authentication backend and are not part of the record. */
  datatype User = User(
    id: UserId,
    username: string,
    email: string,
    bio: string,
    profilePicture: Option<string>)

  /** One row of the `following` many-to-many table: (follower, followee). */
  type Edge = (UserId, UserId)

  /** The users that `u` follows. */
  function Following(edges: set<Edge>, u: UserId): (r: set<UserId>)
    ensures forall v :: v in r <==> (u, v) in edges
  {
    set e | e in edges && e.0 == u :: e.1
  }

  /** The reverse accessor `followers`: the users that follow `u`. */
  function Followers(edges: set<Edge>, u: UserId): (r: set<UserId>)
    ensures forall v :: v in r <==> (v, u) in edges
  {
    set e | e in edges && e.1 == u :: e.0
  }

  /** The followers of `u` are exactly the users whose following set contains `u`. */
  lemma FollowersAreReverse(edges: set<Edge>, u: UserId, v: UserId)
    ensures v in Followers(edges, u) <==> u in Following(edges, v)
  {
  }

  /** The display form of a user is its username. */
  function UserStr(u: User): (s: string)
    ensures s == u.username
  {
    u.username
  }

  /** The relation is declared non-symmetric: one edge does not imply its reverse. */
  lemma FollowingIsDirected()
    ensures var edges: set<Edge> := {(1, 2)};
            2 in Following(edges, 1) && 1 !in Following(edges, 2) && Followers(edges, 1) == {}
  {
  }

  /** Neither the schema nor `blank=True` forbids an empty following set or a self-edge. */
  lemma SchemaAllowsEmptyAndSelfEdges(u: UserId)
    ensures Following({}, u) == {}
    ensures var edges: set<Edge> := {(u, u)};
            u in Following(edges, u) && u in Followers(edges, u)
  {
  }

  /** No user follows itself; the schema does not guarantee it, the follow view keeps it. */
  ghost predicate NoSelfFollow(edges: set<Edge>) {
    forall e :: e in edges ==> e.0 != e.1
  }

  /** A new edge (a, b) gives b the follower a, and nobody else a follower. */
  lemma AddEdgeFollowers(edges: set<Edge>, a: UserId, b: UserId, u: UserId)
    ensures Followers(edges + {(a, b)}, u) == Followers(edges, u) + (if u == b then {a} else {})
  {
    var e' := edges + {(a, b)};
    forall v ensures v in Followers(e', u) <==> v in Followers(edges, u) + (if u == b then {a} else {}) {
      assert (v, u) in e' <==> (v, u) in edges || (v == a && u == b);
    }
  }

  /** A new edge (a, b) gives a the followee b, and nobody else a followee. */
  lemma AddEdgeFollowing(edges: set<Edge>, a: UserId, b: UserId, u: UserId)
    ensures Following(edges + {(a, b)}, u) == Following(edges, u) + (if u == a then {b} else {})
  {
    var e' := edges + {(a, b)};
    forall v ensures v in Following(e', u) <==> v in Following(edges, u) + (if u == a then {b} else {}) {
      assert (u, v) in e' <==> (u, v) in edges || (u == a && v == b);
    }
  }

  /** A new edge (a, b) adds exactly one follower to b and one followee to a, and nobody else's counts move. */
  lemma {:induction false} AddEdgeCounts(edges: set<Edge>, a: UserId, b: UserId, u: UserId)
    requires (a, b) !in edges
    ensures |Followers(edges + {(a, b)}, b)| == |Followers(edges, b)| + 1
    ensures |Following(edges + {(a, b)}, a)| == |Following(edges, a)| + 1
    ensures u != b ==> Followers(edges + {(a, b)}, u) == Followers(edges, u)
    ensures u != a ==> Following(edges + {(a, b)}, u) == Following(edges, u)
  {
    var e' := edges + {(a, b)};
    AddEdgeFollowers(edges, a, b, b);
    var before, after := Followers(edges, b), Followers(e', b);
    assert a !in before && after == before + {a};
    AddEdgeFollowing(edges, a, b, a);
    var before', after' := Following(edges, a), Following(e', a);
    assert b !in before' && after' == before' + {b};
    AddEdgeFollowers(edges, a, b, u);
    AddEdgeFollowing(edges, a, b, u);
  }

  /** Removing an existing edge (a, b) takes exactly one follower from b and one followee from a. */
  lemma {:induction false} RemoveEdgeCounts(edges: set<Edge>, a: UserId, b: UserId, u: UserId)
    requires (a, b) in edges
    ensures |Followers(edges - {(a, b)}, b)| == |Followers(edges, b)| - 1
    ensures |Following(edges - {(a, b)}, a)| == |Following(edges, a)| - 1
    ensures u != b ==> Followers(edges - {(a, b)}, u) == Followers(edges, u)
    ensures u != a ==> Following(edges - {(a, b)}, u) == Following(edges, u)
  {
    var e' := edges - {(a, b)};
    assert Followers(e', b) == Followers(edges, b) - {a};
    assert a in Followers(edges, b);
    assert Following(e', a) == Following(edges, a) - {b};
    assert b in Following(edges, a);
    if u != b {
      assert Followers(e', u) == Followers(edges, u);
    }
    if u != a {
      assert Following(e', u) == Following(edges, u);
    }
  }
}
