/** The integrator's ray casting: pick the nearest object a ray hits and
    shade it, or return the background; and draw sample rays until enough
    of them pass a filter. Objects, their intersection test, the shading
    and the random ray source are parameters. */
module Cast {
  import opened Common

  /** Object `k` is the one `cast_ray` picks: it is hit, no hit object is
      nearer, and every hit object before it is strictly farther (the
      comparison is a strict `<`, so the first of several equally near
      objects wins). */
  ghost predicate IsNearest<O, I>(objs: seq<O>, intersect: O -> Option<I>, distance: I -> real, k: nat)
  {
    && k < |objs|
    && intersect(objs[k]).Some?
    && (forall j :: 0 <= j < |objs| && intersect(objs[j]).Some? ==>
          distance(intersect(objs[k]).value) <= distance(intersect(objs[j]).value))
    && (forall j :: 0 <= j < k && intersect(objs[j]).Some? ==>
          distance(intersect(objs[k]).value) < distance(intersect(objs[j]).value))
  }

  /** At most one object is the nearest. */
  lemma NearestUnique<O, I>(objs: seq<O>, intersect: O -> Option<I>, distance: I -> real, k1: nat, k2: nat)
    requires IsNearest(objs, intersect, distance, k1) && IsNearest(objs, intersect, distance, k2)
    ensures k1 == k2
  {
    if k1 < k2 {
      assert false;
    } else if k2 < k1 {
      assert false;
    }
  }

  /** The scan of `cast_ray`: the index of the nearest object hit and its
      intersection, or `None` for both when no object is hit. */
  method FindNearest<O, I>(objs: seq<O>, intersect: O -> Option<I>, distance: I -> real)
    returns (index: Option<nat>, hit: Option<I>)
    ensures index.Some? <==> hit.Some?
    ensures index.None? <==> forall j :: 0 <= j < |objs| ==> intersect(objs[j]).None?
    ensures index.Some? ==> IsNearest(objs, intersect, distance, index.value)
    ensures index.Some? ==> hit == intersect(objs[index.value])
  {
    index, hit := None, None;
    for i := 0 to |objs|
      invariant index.Some? <==> hit.Some?
      invariant index.None? <==> forall j :: 0 <= j < i ==> intersect(objs[j]).None?
      invariant index.Some? ==> index.value < i && hit == intersect(objs[index.value])
      invariant index.Some? ==> forall j :: 0 <= j < i && intersect(objs[j]).Some? ==>
                                  distance(hit.value) <= distance(intersect(objs[j]).value)
      invariant index.Some? ==> forall j :: 0 <= j < index.value && intersect(objs[j]).Some? ==>
                                  distance(hit.value) < distance(intersect(objs[j]).value)
    {
      match intersect(objs[i]) {
        case Some(found) =>
          if hit.None? || distance(found) < distance(hit.value) {
            hit := Some(found);
            index := Some(i);
          }
        case None =>
      }
    }
  }

  /** `cast_ray`: the background at depth 0 without looking at any
      object; otherwise the shading of the nearest object hit, called with
      the same depth, or the background when nothing is hit. */
  method CastRay<O, I>(objs: seq<O>, intersect: O -> Option<I>, distance: I -> real,
                       shade: (O, I, nat) -> Illumination, depth: nat)
    returns (ill: Illumination)
    ensures depth == 0 ==> ill == Background
    ensures depth > 0 && (forall j :: 0 <= j < |objs| ==> intersect(objs[j]).None?) ==> ill == Background
    ensures depth > 0 && (exists j :: 0 <= j < |objs| && intersect(objs[j]).Some?) ==>
      exists k: nat :: IsNearest(objs, intersect, distance, k) &&
                  ill == shade(objs[k], intersect(objs[k]).value, depth)
  {
    if depth == 0 {
      return Background;
    }
    var index, hit := FindNearest(objs, intersect, distance);
    match index {
      case Some(k) =>
        ill := shade(objs[k], hit.value, depth);
      case None =>
        ill := Background;
    }
  }

  /** The draws `accept` lets through, in the order drawn. */
  function Accepted<R>(draws: seq<R>, accept: R -> bool): (a: seq<R>)
    ensures |a| <= |draws|
    ensures forall i :: 0 <= i < |a| ==> accept(a[i])
    decreases |draws|
  {
    if |draws| == 0 then []
    else
      var last := draws[|draws| - 1];
      Accepted(draws[..|draws| - 1], accept) + (if accept(last) then [last] else [])
  }

  /** What is accepted from a prefix of the draws is a prefix of what is
      accepted from all of them. */
  lemma {:induction false} AcceptedPrefix<R>(draws: seq<R>, accept: R -> bool, d: nat)
    requires d <= |draws|
    ensures var a := Accepted(draws[..d], accept);
      |a| <= |Accepted(draws, accept)| && a == Accepted(draws, accept)[..|a|]
    decreases |draws|
  {
    if d < |draws| {
      var n := |draws| - 1;
      assert draws[..n][..d] == draws[..d];
      AcceptedPrefix(draws[..n], accept, d);
    } else {
      assert draws[..d] == draws;
    }
  }

  /** Every accepted draw is one of the draws, and every draw that passes
      is accepted: nothing but rejected draws is dropped. */
  lemma {:induction false} AcceptedExactly<R>(draws: seq<R>, accept: R -> bool)
    ensures forall x :: x in Accepted(draws, accept) <==> x in draws && accept(x)
    decreases |draws|
  {
    if |draws| > 0 {
      var n := |draws| - 1;
      AcceptedExactly(draws[..n], accept);
      assert draws == draws[..n] + [draws[n]];
    }
  }

  /** `get_sample_rays` with the random rays drawn from `draws`, one per
      loop turn: the first `count` draws that `accept` lets through, in
      order, written into an array of `count` rays that starts out filled
      with `blank` (`Ray::new()`). The source loops until it has enough;
      here the result is `None` when the draws run out first. */
  method SampleRays<R>(draws: seq<R>, accept: R -> bool, count: nat, blank: R) returns (r: Option<seq<R>>)
    ensures r.Some? <==> |Accepted(draws, accept)| >= count
    ensures r.Some? ==> r.value == Accepted(draws, accept)[..count]
  {
    var rays := new R[count](_ => blank);
    var i := 0;
    var d := 0;
    while i < count && d < |draws|
      invariant 0 <= i <= count && 0 <= d <= |draws|
      invariant rays[..i] == Accepted(draws[..d], accept)
      decreases |draws| - d
    {
      var ray := draws[d];
      assert draws[..d + 1][..d] == draws[..d];
      d := d + 1;
      if accept(ray) {
        rays[i] := ray;
        i := i + 1;
      }
    }
    AcceptedPrefix(draws, accept, d);
    if i < count {
      assert draws[..d] == draws;
      return None;
    }
    assert rays[..] == rays[..i];
    return Some(rays[..]);
  }
}
