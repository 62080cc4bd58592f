/** Where the classifier sends each listed path, and the buckets that result. */
module Buckets {
  import opened Wrappers

  /** The outcome of one iteration of the classifying loop. */
  datatype Route =
    | Ignored       // the path is in the ignore set
    | Known         // append mode, and the existing document already shows it
    | ToFurniture
    | ToTheme
    | AsIndex       // the previous output document, kept aside as `existingIndex`
    | ToFiles

  /** The entries whose route is `r`, in input order: what the loop pushes onto
      one bucket. */
  function Pick<T>(xs: seq<T>, rs: seq<Route>, r: Route): (b: seq<T>)
    requires |xs| == |rs|
    ensures |b| <= |xs|
  {
    if |xs| == 0 then []
    else Pick(xs[..|xs| - 1], rs[..|rs| - 1], r) + (if rs[|rs| - 1] == r then [xs[|xs| - 1]] else [])
  }

  /** The last entry routed to `r`: the loop overwrites `existingIndex` each time. */
  function LastPicked<T>(xs: seq<T>, rs: seq<Route>, r: Route): (o: Option<T>)
    requires |xs| == |rs|
    ensures o.None? <==> Pick(xs, rs, r) == []
    ensures o.Some? ==> o.value == Pick(xs, rs, r)[|Pick(xs, rs, r)| - 1]
  {
    var b := Pick(xs, rs, r);
    if |b| == 0 then None else Some(b[|b| - 1])
  }

  /** One more iteration of the loop extends exactly the bucket of its route. */
  lemma PickSnoc<T>(xs: seq<T>, rs: seq<Route>, i: nat, r: Route)
    requires |xs| == |rs| && i < |xs|
    ensures Pick(xs[..i + 1], rs[..i + 1], r) ==
      Pick(xs[..i], rs[..i], r) + (if rs[i] == r then [xs[i]] else [])
  {
    assert xs[..i + 1][..i] == xs[..i];
    assert rs[..i + 1][..i] == rs[..i];
  }

  /** One iteration of the classifying loop, for the three lists and the
      remembered index at once. */
  lemma LoopStep<T>(xs: seq<T>, rs: seq<Route>, i: nat)
    requires |xs| == |rs| && i < |xs|
    ensures rs[i] == ToFiles ==> Pick(xs[..i + 1], rs[..i + 1], ToFiles) == Pick(xs[..i], rs[..i], ToFiles) + [xs[i]]
    ensures rs[i] != ToFiles ==> Pick(xs[..i + 1], rs[..i + 1], ToFiles) == Pick(xs[..i], rs[..i], ToFiles)
    ensures rs[i] == ToFurniture ==>
      Pick(xs[..i + 1], rs[..i + 1], ToFurniture) == Pick(xs[..i], rs[..i], ToFurniture) + [xs[i]]
    ensures rs[i] != ToFurniture ==> Pick(xs[..i + 1], rs[..i + 1], ToFurniture) == Pick(xs[..i], rs[..i], ToFurniture)
    ensures rs[i] == ToTheme ==> Pick(xs[..i + 1], rs[..i + 1], ToTheme) == Pick(xs[..i], rs[..i], ToTheme) + [xs[i]]
    ensures rs[i] != ToTheme ==> Pick(xs[..i + 1], rs[..i + 1], ToTheme) == Pick(xs[..i], rs[..i], ToTheme)
    ensures rs[i] == AsIndex ==> LastPicked(xs[..i + 1], rs[..i + 1], AsIndex) == Some(xs[i])
    ensures rs[i] != AsIndex ==> LastPicked(xs[..i + 1], rs[..i + 1], AsIndex) == LastPicked(xs[..i], rs[..i], AsIndex)
  {
    PickSnoc(xs, rs, i, ToFiles);
    PickSnoc(xs, rs, i, ToFurniture);
    PickSnoc(xs, rs, i, ToTheme);
    PickSnoc(xs, rs, i, AsIndex);
  }

  /** Buckets keep input order: the bucket of a concatenation is the
      concatenation of the buckets. */
  lemma {:induction false} PickAppend<T>(xs: seq<T>, rs: seq<Route>, ys: seq<T>, ss: seq<Route>, r: Route)
    requires |xs| == |rs| && |ys| == |ss|
    ensures Pick(xs + ys, rs + ss, r) == Pick(xs, rs, r) + Pick(ys, ss, r)
    decreases |ys|
  {
    if |ys| == 0 {
      assert xs + ys == xs && rs + ss == rs;
    } else {
      var ys', ss' := ys[..|ys| - 1], ss[..|ss| - 1];
      assert (xs + ys)[..|xs + ys| - 1] == xs + ys';
      assert (rs + ss)[..|rs + ss| - 1] == rs + ss';
      PickAppend(xs, rs, ys', ss', r);
    }
  }

  /** A position routed to `r` puts its entry in the bucket of `r`. */
  lemma {:induction false} PickHas<T>(xs: seq<T>, rs: seq<Route>, r: Route, i: nat)
    requires |xs| == |rs| && i < |xs| && rs[i] == r
    ensures xs[i] in Pick(xs, rs, r)
  {
    var n := |xs| - 1;
    if i < n {
      PickHas(xs[..n], rs[..n], r, i);
      assert xs[..n][i] == xs[i];
    }
  }

  /** Every entry of the bucket of `r` comes from a position routed to `r`. */
  lemma {:induction false} PickFrom<T>(xs: seq<T>, rs: seq<Route>, r: Route, x: T) returns (i: nat)
    requires |xs| == |rs| && x in Pick(xs, rs, r)
    ensures i < |xs| && xs[i] == x && rs[i] == r
  {
    var n := |xs| - 1;
    var init := Pick(xs[..n], rs[..n], r);
    if x in init {
      i := PickFrom(xs[..n], rs[..n], r, x);
      assert xs[..n][i] == xs[i] && rs[..n][i] == rs[i];
    } else {
      i := n;
    }
  }

  /** An entry is in a bucket exactly when some position holding it was routed there. */
  lemma PickMembers<T>(xs: seq<T>, rs: seq<Route>, r: Route, x: T)
    requires |xs| == |rs|
    ensures x in Pick(xs, rs, r) <==> exists i :: 0 <= i < |xs| && xs[i] == x && rs[i] == r
  {
    if x in Pick(xs, rs, r) {
      var i := PickFrom(xs, rs, r, x);
    }
    if exists i :: 0 <= i < |xs| && xs[i] == x && rs[i] == r {
      var i :| 0 <= i < |xs| && xs[i] == x && rs[i] == r;
      PickHas(xs, rs, r, i);
    }
  }

  /** A route no entry takes has an empty bucket. */
  lemma {:induction false} PickNone<T>(xs: seq<T>, rs: seq<Route>, r: Route)
    requires |xs| == |rs| && forall i :: 0 <= i < |rs| ==> rs[i] != r
    ensures Pick(xs, rs, r) == []
  {
    if |xs| > 0 {
      var n := |xs| - 1;
      assert forall i :: 0 <= i < n ==> rs[..n][i] == rs[i];
      PickNone(xs[..n], rs[..n], r);
    }
  }

  /** The bucket of `r`, counted as a multiset, after one more entry. */
  lemma PickStep<T>(xs: seq<T>, rs: seq<Route>, r: Route)
    requires |xs| == |rs| && |xs| > 0
    ensures multiset(Pick(xs, rs, r)) ==
      multiset(Pick(xs[..|xs| - 1], rs[..|rs| - 1], r)) + (if rs[|rs| - 1] == r then multiset{xs[|xs| - 1]} else multiset{})
  {
  }

  /** The buckets of `routes`, counted together. */
  function Gather<T>(xs: seq<T>, rs: seq<Route>, routes: seq<Route>): multiset<T>
    requires |xs| == |rs|
  {
    if |routes| == 0 then multiset{} else multiset(Pick(xs, rs, routes[0])) + Gather(xs, rs, routes[1..])
  }

  predicate Distinct(routes: seq<Route>)
  {
    forall i, j :: 0 <= i < j < |routes| ==> routes[i] != routes[j]
  }

  /** The first route of a list without repeats is not among the others, which are
      again without repeats. */
  lemma DistinctTail(routes: seq<Route>)
    requires |routes| > 0 && Distinct(routes)
    ensures Distinct(routes[1..]) && routes[0] !in routes[1..]
  {
    var tail := routes[1..];
    forall i, j | 0 <= i < j < |tail| ensures tail[i] != tail[j] {
      assert tail[i] == routes[i + 1] && tail[j] == routes[j + 1];
    }
    forall j | 0 <= j < |tail| ensures tail[j] != routes[0] {
      assert tail[j] == routes[j + 1];
    }
  }

  /** Adding one entry to two disjoint counts adds it once to their sum. */
  lemma Combine<T>(h: multiset<T>, h': multiset<T>, t: multiset<T>, t': multiset<T>, x: T, hit: bool, later: bool)
    requires h == h' + (if hit then multiset{x} else multiset{})
    requires t == t' + (if later then multiset{x} else multiset{})
    requires !(hit && later)
    ensures h + t == (h' + t') + (if hit || later then multiset{x} else multiset{})
  {
  }

  lemma {:induction false} GatherStep<T>(xs: seq<T>, rs: seq<Route>, routes: seq<Route>)
    requires |xs| == |rs| && |xs| > 0 && Distinct(routes)
    ensures Gather(xs, rs, routes) == Gather(xs[..|xs| - 1], rs[..|rs| - 1], routes) +
      (if rs[|rs| - 1] in routes then multiset{xs[|xs| - 1]} else multiset{})
  {
    if |routes| > 0 {
      var n := |xs| - 1;
      var tail := routes[1..];
      DistinctTail(routes);
      GatherStep(xs, rs, tail);
      PickStep(xs, rs, routes[0]);
      assert routes == [routes[0]] + tail;
      assert (rs[n] in routes) == (rs[n] == routes[0] || rs[n] in tail);
      Combine(multiset(Pick(xs, rs, routes[0])), multiset(Pick(xs[..n], rs[..n], routes[0])),
        Gather(xs, rs, tail), Gather(xs[..n], rs[..n], tail), xs[n], rs[n] == routes[0], rs[n] in tail);
    }
  }

  /** A list naming every route once. */
  predicate Complete(routes: seq<Route>)
  {
    Distinct(routes) && forall r: Route :: r in routes
  }

  lemma {:induction false} GatherNone<T>(xs: seq<T>, rs: seq<Route>, routes: seq<Route>)
    requires |xs| == 0 && |rs| == 0
    ensures Gather(xs, rs, routes) == multiset{}
  {
    if |routes| > 0 {
      GatherNone(xs, rs, routes[1..]);
    }
  }

  /** The outcomes partition the input: every entry lands in exactly one bucket
      (counting the two ways of being dropped), as often as it is listed. */
  lemma {:induction false} PickPartition<T>(xs: seq<T>, rs: seq<Route>, routes: seq<Route>)
    requires |xs| == |rs| && Complete(routes)
    ensures Gather(xs, rs, routes) == multiset(xs)
  {
    if |xs| > 0 {
      var n := |xs| - 1;
      calc {
        Gather(xs, rs, routes);
        == { GatherStep(xs, rs, routes); assert rs[n] in routes; }
        Gather(xs[..n], rs[..n], routes) + multiset{xs[n]};
        == { PickPartition(xs[..n], rs[..n], routes); }
        multiset(xs[..n]) + multiset{xs[n]};
        == { assert xs == xs[..n] + [xs[n]]; }
        multiset(xs);
      }
    } else {
      GatherNone(xs, rs, routes);
    }
  }

  /** The route list the classifier lemmas use. */
  lemma AllRoutesComplete()
    ensures Complete([Ignored, Known, ToFurniture, ToTheme, AsIndex, ToFiles])
  {
    var all := [Ignored, Known, ToFurniture, ToTheme, AsIndex, ToFiles];
    forall r: Route ensures r in all {
      match r {
        case Ignored => assert all[0] == r;
        case Known => assert all[1] == r;
        case ToFurniture => assert all[2] == r;
        case ToTheme => assert all[3] == r;
        case AsIndex => assert all[4] == r;
        case ToFiles => assert all[5] == r;
      }
    }
  }

  /** Consequently the entries that reach the four buckets are no more than the input. */
  lemma {:induction false} BucketsWithinInput<T>(xs: seq<T>, rs: seq<Route>)
    requires |xs| == |rs|
    ensures |Pick(xs, rs, ToFurniture)| + |Pick(xs, rs, ToTheme)| + |Pick(xs, rs, AsIndex)|
      + |Pick(xs, rs, ToFiles)| <= |xs|
  {
    if |xs| > 0 {
      var n := |xs| - 1;
      BucketsWithinInput(xs[..n], rs[..n]);
    }
  }
}
