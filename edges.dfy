/** The relationship records behind likes and subscriptions, and the toggle that flips
    one of them. A Like is an edge from `likedBy` to a video, comment or tweet; a
    Subscription is an edge from `subscriber` to a `Channel` (a user id). */
module Edges {
  import opened Common
  import opened Queries

  datatype Edge<T> = Edge(id: Id, actor: Id, target: T, createdAt: nat)

  /** The edge links `actor` to `target` (the `findOne` filter of a toggle). */
  predicate Joins<T(==,!new)>(e: Edge<T>, actor: Id, target: T) {
    e.actor == actor && e.target == target
  }

  predicate HasEdge<T(==,!new)>(s: seq<Edge<T>>, actor: Id, target: T) {
    exists i :: 0 <= i < |s| && Joins(s[i], actor, target)
  }

  /** At most one edge per (actor, target) pair: the "liked" / "subscribed" state is
      the existence of the edge. */
  predicate AtMostOne<T(==,!new)>(s: seq<Edge<T>>) {
    forall i, j :: 0 <= i < j < |s| ==> !Joins(s[j], s[i].actor, s[i].target)
  }

  /** `findOne({ <target>: targetId, likedBy: userId })`. */
  function FindEdge<T(==,!new)>(s: seq<Edge<T>>, actor: Id, target: T): (r: Option<nat>)
    ensures r.Some? ==> r.value < |s| && Joins(s[r.value], actor, target)
    ensures r.Some? ==> forall j :: 0 <= j < r.value ==> !Joins(s[j], actor, target)
    ensures r.None? <==> !HasEdge(s, actor, target)
  {
    FirstIndex(s, (e: Edge<T>) => Joins(e, actor, target))
  }

  /** `countDocuments({ <target>: targetId })`: the edges pointing at `target`. */
  function TargetCount<T(==,!new)>(s: seq<Edge<T>>, target: T): (n: nat)
    ensures n <= |s|
    ensures n == 0 <==> forall i :: 0 <= i < |s| ==> s[i].target != target
  {
    Count(s, (e: Edge<T>) => e.target == target)
  }

  /** Any filter that selects exactly the edges on `target` counts `TargetCount`. */
  lemma TargetCountIsCount<T(!new)>(s: seq<Edge<T>>, target: T, p: Edge<T> -> bool)
    requires forall e :: p(e) <==> e.target == target
    ensures TargetCount(s, target) == Count(s, p)
  {
    CountSame(s, (e: Edge<T>) => e.target == target, p);
  }

  /** All edges except those linking `actor` to `target`, in order. */
  function Others<T(==,!new)>(s: seq<Edge<T>>, actor: Id, target: T): seq<Edge<T>> {
    Select(s, (e: Edge<T>) => !Joins(e, actor, target))
  }

  /** The (actor, target) pairs of a collection, with multiplicity. */
  function Pairs<T(==,!new)>(s: seq<Edge<T>>): (m: multiset<(Id, T)>)
    ensures |m| == |s|
  {
    if s == [] then multiset{} else multiset{(s[0].actor, s[0].target)} + Pairs(s[1..])
  }

  /** The actors whose edge points at `target`. */
  function Actors<T(==,!new)>(s: seq<Edge<T>>, target: T): (r: set<Id>)
    ensures forall a :: a in r <==> exists i :: 0 <= i < |s| && Joins(s[i], a, target)
  {
    if s == [] then {}
    else
      var rest := Actors(s[1..], target);
      assert forall a, i :: 0 <= i < |s| - 1 ==> (Joins(s[1..][i], a, target) <==> Joins(s[i + 1], a, target));
      (if s[0].target == target then {s[0].actor} else {}) + rest
  }

  function RemoveAt<T>(s: seq<T>, i: nat): (r: seq<T>)
    requires i < |s|
    ensures |r| == |s| - 1
    ensures forall k :: 0 <= k < i ==> r[k] == s[k]
    ensures forall k :: i <= k < |r| ==> r[k] == s[k + 1]
  {
    s[..i] + s[i + 1..]
  }

  datatype Toggled<T> = Toggled(edges: seq<Edge<T>>, active: bool)

  /** The toggle: delete the first matching edge if there is one, otherwise append a new
      edge `newId` created at `now`. `active` is the reported `isLiked`/`isSubscribed`. */
  function Toggle<T(==,!new)>(s: seq<Edge<T>>, actor: Id, target: T, newId: Id, now: nat): (t: Toggled<T>)
    ensures t.active <==> !HasEdge(s, actor, target)
    ensures |t.edges| == if t.active then |s| + 1 else |s| - 1
    ensures t.active ==> t.edges == s + [Edge(newId, actor, target, now)]
  {
    match FindEdge(s, actor, target)
    case Some(i) => Toggled(RemoveAt(s, i), false)
    case None => Toggled(s + [Edge(newId, actor, target, now)], true)
  }

  lemma Split<T>(s: seq<T>, i: nat)
    requires i < |s|
    ensures s == s[..i] + [s[i]] + s[i + 1..]
    ensures RemoveAt(s, i) == s[..i] + s[i + 1..]
  {
  }

  /** The reported state is the opposite of whether the edge existed. */
  lemma ToggleReportsFlip<T(!new)>(s: seq<Edge<T>>, actor: Id, target: T, newId: Id, now: nat)
    ensures Toggle(s, actor, target, newId, now).active <==> !HasEdge(s, actor, target)
  {
  }

  /** A toggle creates or deletes exactly one edge, and it is an (actor, target) edge. */
  lemma ToggleChangesOneEdge<T(!new)>(s: seq<Edge<T>>, actor: Id, target: T, newId: Id, now: nat)
    ensures var t := Toggle(s, actor, target, newId, now);
      if t.active then Pairs(t.edges) == Pairs(s) + multiset{(actor, target)}
      else (actor, target) in Pairs(s) && Pairs(t.edges) == Pairs(s) - multiset{(actor, target)}
  {
    var e := Edge(newId, actor, target, now);
    match FindEdge(s, actor, target)
    case None =>
      PairsAppend(s, [e]);
    case Some(i) =>
      PairsRemoveAt(s, i);
  }

  /** Deleting an edge removes exactly its pair from the pair multiset. */
  lemma PairsRemoveAt<T(!new)>(s: seq<Edge<T>>, i: nat)
    requires i < |s|
    ensures (s[i].actor, s[i].target) in Pairs(s)
    ensures Pairs(RemoveAt(s, i)) == Pairs(s) - multiset{(s[i].actor, s[i].target)}
  {
    var pre, post := s[..i], s[i + 1..];
    Split(s, i);
    PairsAppend(pre + [s[i]], post);
    PairsAppend(pre, [s[i]]);
    PairsAppend(pre, post);
    assert [s[i]][1..] == [];
    assert Pairs([s[i]]) == multiset{(s[i].actor, s[i].target)};
  }

  /** A toggle leaves every other edge where it was. */
  lemma ToggleKeepsOthers<T(!new)>(s: seq<Edge<T>>, actor: Id, target: T, newId: Id, now: nat)
    ensures Others(Toggle(s, actor, target, newId, now).edges, actor, target) == Others(s, actor, target)
  {
    var t := Toggle(s, actor, target, newId, now);
    var k := FindEdge(s, actor, target);
    if k.None? {
      assert t.edges == s + [Edge(newId, actor, target, now)];
      OthersAppend(s, [Edge(newId, actor, target, now)], actor, target);
    } else {
      var i := k.value;
      Split(s, i);
      assert t.edges == s[..i] + s[i + 1..];
      OthersAppend(s[..i] + [s[i]], s[i + 1..], actor, target);
      OthersAppend(s[..i], [s[i]], actor, target);
      OthersAppend(s[..i], s[i + 1..], actor, target);
      assert Others(s[..i] + [s[i]], actor, target) == Others(s[..i], actor, target);
    }
  }

  lemma OthersAppend<T(!new)>(a: seq<Edge<T>>, b: seq<Edge<T>>, actor: Id, target: T)
    ensures Others(a + b, actor, target) == Others(a, actor, target) + Others(b, actor, target)
    ensures |b| == 1 && Joins(b[0], actor, target) ==> Others(b, actor, target) == []
  {
    SelectAppend(a, b, (e: Edge<T>) => !Joins(e, actor, target));
    if |b| == 1 {
      assert b[1..] == [];
    }
  }

  /** The re-count after a toggle is one more or one less than before. */
  lemma ToggleCount<T(!new)>(s: seq<Edge<T>>, actor: Id, target: T, newId: Id, now: nat)
    ensures var t := Toggle(s, actor, target, newId, now);
      TargetCount(t.edges, target) == if t.active then TargetCount(s, target) + 1 else TargetCount(s, target) - 1
  {
    var p := (e: Edge<T>) => e.target == target;
    var e := Edge(newId, actor, target, now);
    match FindEdge(s, actor, target)
    case None =>
      CountAppend(s, [e], p);
    case Some(i) =>
      Split(s, i);
      CountAppend(s[..i] + [s[i]], s[i + 1..], p);
      CountAppend(s[..i], [s[i]], p);
      CountAppend(s[..i], s[i + 1..], p);
  }

  /** Edges on any other target keep their count. */
  lemma ToggleKeepsOtherCounts<T(!new)>(s: seq<Edge<T>>, actor: Id, target: T, newId: Id, now: nat, other: T)
    requires other != target
    ensures TargetCount(Toggle(s, actor, target, newId, now).edges, other) == TargetCount(s, other)
  {
    var p := (e: Edge<T>) => e.target == other;
    var e := Edge(newId, actor, target, now);
    match FindEdge(s, actor, target)
    case None =>
      CountAppend(s, [e], p);
    case Some(i) =>
      Split(s, i);
      CountAppend(s[..i] + [s[i]], s[i + 1..], p);
      CountAppend(s[..i], [s[i]], p);
      CountAppend(s[..i], s[i + 1..], p);
  }

  /** Everything a toggle handler reports and keeps, in one statement: under the
      one-edge-per-pair invariant the toggle keeps the invariant, flips membership,
      reports the new membership, leaves the other edges alone and moves the count on
      the target by one. */
  lemma ToggleLaws<T(!new)>(s: seq<Edge<T>>, actor: Id, target: T, newId: Id, now: nat)
    requires AtMostOne(s)
    ensures var t := Toggle(s, actor, target, newId, now);
      && AtMostOne(t.edges)
      && (HasEdge(t.edges, actor, target) <==> !HasEdge(s, actor, target))
      && (t.active <==> HasEdge(t.edges, actor, target))
      && Others(t.edges, actor, target) == Others(s, actor, target)
      && TargetCount(t.edges, target) ==
           if t.active then TargetCount(s, target) + 1 else TargetCount(s, target) - 1
  {
    ToggleFlips(s, actor, target, newId, now);
    ToggleReportsFlip(s, actor, target, newId, now);
    ToggleKeepsOthers(s, actor, target, newId, now);
    ToggleCount(s, actor, target, newId, now);
  }

  /** For any filter that decides an edge by its target alone, a toggle moves the count
      by one when the filter accepts the toggled target and leaves it alone otherwise. */
  lemma ToggleCountWhere<T(!new)>(s: seq<Edge<T>>, actor: Id, target: T, newId: Id, now: nat,
                                  p: Edge<T> -> bool, onTarget: bool)
    requires forall e: Edge<T> :: e.target == target ==> p(e) == onTarget
    ensures var t := Toggle(s, actor, target, newId, now);
      Count(t.edges, p) ==
        if !onTarget then Count(s, p) else if t.active then Count(s, p) + 1 else Count(s, p) - 1
  {
    var e := Edge(newId, actor, target, now);
    match FindEdge(s, actor, target)
    case None =>
      CountAppend(s, [e], p);
      assert [e][1..] == [];
    case Some(i) =>
      Split(s, i);
      CountAppend(s[..i] + [s[i]], s[i + 1..], p);
      CountAppend(s[..i], [s[i]], p);
      CountAppend(s[..i], s[i + 1..], p);
      assert [s[i]][1..] == [];
  }

  /** Under the one-edge-per-pair invariant the toggle flips membership and keeps the
      invariant. */
  lemma ToggleFlips<T(!new)>(s: seq<Edge<T>>, actor: Id, target: T, newId: Id, now: nat)
    requires AtMostOne(s)
    ensures var t := Toggle(s, actor, target, newId, now);
      AtMostOne(t.edges) && (HasEdge(t.edges, actor, target) <==> !HasEdge(s, actor, target))
  {
    var t := Toggle(s, actor, target, newId, now);
    match FindEdge(s, actor, target)
    case None =>
      var r := t.edges;
      assert r == s + [Edge(newId, actor, target, now)];
      forall i, j | 0 <= i < j < |r| ensures !Joins(r[j], r[i].actor, r[i].target) {
        if j == |s| {
          assert !Joins(s[i], actor, target);
        }
      }
      assert Joins(r[|s|], actor, target);
    case Some(i) =>
      var r := t.edges;
      forall k | 0 <= k < |s| && k != i ensures !Joins(s[k], actor, target) {
        if k < i {} else {}
      }
      forall a, b | 0 <= a < b < |r| ensures !Joins(r[b], r[a].actor, r[a].target) {
        var a', b' := if a < i then a else a + 1, if b < i then b else b + 1;
        assert r[a] == s[a'] && r[b] == s[b'];
      }
  }

  /** Toggling twice restores the liked state, the (actor, target) pairs, the count and
      the other edges; when the edge was absent it restores the collection exactly. */
  lemma ToggleTwice<T(!new)>(s: seq<Edge<T>>, actor: Id, target: T, id1: Id, now1: nat, id2: Id, now2: nat)
    requires AtMostOne(s)
    ensures var once := Toggle(s, actor, target, id1, now1);
      var twice := Toggle(once.edges, actor, target, id2, now2);
      && once.active != twice.active
      && twice.active == HasEdge(s, actor, target)
      && Pairs(twice.edges) == Pairs(s)
      && TargetCount(twice.edges, target) == TargetCount(s, target)
      && Others(twice.edges, actor, target) == Others(s, actor, target)
      && (!HasEdge(s, actor, target) ==> twice.edges == s)
  {
    var once := Toggle(s, actor, target, id1, now1);
    ToggleLaws(s, actor, target, id1, now1);
    ToggleLaws(once.edges, actor, target, id2, now2);
    ToggleReportsFlip(once.edges, actor, target, id2, now2);
    ToggleChangesOneEdge(s, actor, target, id1, now1);
    ToggleChangesOneEdge(once.edges, actor, target, id2, now2);
    if !HasEdge(s, actor, target) {
      CreateThenDelete(s, actor, target, id1, now1, id2, now2);
    }
  }

  /** When the edge was absent, the second toggle deletes exactly the edge the first
      one appended. */
  lemma CreateThenDelete<T(!new)>(s: seq<Edge<T>>, actor: Id, target: T, id1: Id, now1: nat, id2: Id, now2: nat)
    requires !HasEdge(s, actor, target)
    ensures Toggle(Toggle(s, actor, target, id1, now1).edges, actor, target, id2, now2).edges == s
  {
    var r := Toggle(s, actor, target, id1, now1).edges;
    assert r == s + [Edge(id1, actor, target, now1)];
    var k := FindEdge(r, actor, target);
    assert Joins(r[|s|], actor, target);
    assert k.Some?;
    assert k.value == |s|;
    assert RemoveAt(r, |s|) == s;
  }

  lemma {:induction false} PairsAppend<T(!new)>(a: seq<Edge<T>>, b: seq<Edge<T>>)
    ensures Pairs(a + b) == Pairs(a) + Pairs(b)
  {
    if a == [] {
      assert a + b == b;
    } else {
      assert (a + b)[1..] == a[1..] + b;
      PairsAppend(a[1..], b);
    }
  }

  /** With one edge per pair, the count on a target is the number of distinct actors. */
  lemma {:induction false} CountIsActors<T(!new)>(s: seq<Edge<T>>, target: T)
    requires AtMostOne(s)
    ensures TargetCount(s, target) == |Actors(s, target)|
  {
    if s != [] {
      var rest := s[1..];
      assert AtMostOne(rest) by {
        forall i, j | 0 <= i < j < |rest| ensures !Joins(rest[j], rest[i].actor, rest[i].target) {
          assert rest[i] == s[i + 1] && rest[j] == s[j + 1];
        }
      }
      CountIsActors(rest, target);
      if s[0].target == target {
        assert s[0].actor !in Actors(rest, target);
      }
    }
  }
}
