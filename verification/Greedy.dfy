/** Sharing one link's capacity between classes, most protected first. */
module Greedy {
  import opened Model

  function Sum(v: seq<nat>): nat {
    if v == [] then 0 else v[0] + Sum(v[1..])
  }

  /** Each class in turn gets what it wants or what is left. */
  function Grants(wants: seq<nat>, headroom: nat): (g: seq<nat>)
    ensures |g| == |wants|
  {
    if wants == [] then []
    else
      var give := Min(wants[0], headroom);
      [give] + Grants(wants[1..], headroom - give)
  }

  /** A division nobody could object to: no class above its want, no more than there is. */
  ghost predicate Feasible(v: seq<nat>, wants: seq<nat>, headroom: nat) {
    |v| == |wants| && (forall i :: 0 <= i < |v| ==> v[i] <= wants[i]) && Sum(v) <= headroom
  }

  /** v is a, or loses to a at the first class where they differ. */
  ghost predicate LexAtMost(v: seq<nat>, a: seq<nat>)
    requires |v| == |a|
  {
    v == [] || v[0] < a[0] || (v[0] == a[0] && LexAtMost(v[1..], a[1..]))
  }

  /** The ceilings use all the capacity that is wanted. */
  lemma {:induction false} GrantsUseEverything(wants: seq<nat>, headroom: nat)
    ensures Feasible(Grants(wants, headroom), wants, headroom)
    ensures Sum(Grants(wants, headroom)) == Min(Sum(wants), headroom)
  {
    if wants != [] {
      var give := Min(wants[0], headroom);
      GrantsUseEverything(wants[1..], headroom - give);
      assert Grants(wants, headroom)[1..] == Grants(wants[1..], headroom - give);
    }
  }

  /** No feasible division serves the classes better in priority order. */
  lemma {:induction false} GrantsAreLexGreatest(wants: seq<nat>, headroom: nat, v: seq<nat>)
    requires Feasible(v, wants, headroom)
    ensures LexAtMost(v, Grants(wants, headroom))
  {
    if wants != [] {
      var give := Min(wants[0], headroom);
      var g := Grants(wants, headroom);
      assert g[1..] == Grants(wants[1..], headroom - give);
      if v[0] == give {
        GrantsAreLexGreatest(wants[1..], headroom - give, v[1..]);
      }
    }
  }

  /** A class left short means nothing at all for every class after it. */
  lemma {:induction false} ShortfallStarvesTheRest(wants: seq<nat>, headroom: nat, i: nat, j: nat)
    requires i < j < |wants| && Grants(wants, headroom)[i] < wants[i]
    ensures Grants(wants, headroom)[j] == 0
  {
    var give := Min(wants[0], headroom);
    if i > 0 {
      ShortfallStarvesTheRest(wants[1..], headroom - give, i - 1, j - 1);
    } else {
      NothingLeft(wants[1..], j - 1);
    }
  }

  lemma {:induction false} NothingLeft(wants: seq<nat>, j: nat)
    requires j < |wants|
    ensures Grants(wants, 0)[j] == 0
  {
    if j > 0 {
      NothingLeft(wants[1..], j - 1);
    }
  }

  /** More capacity never lowers anyone's ceiling. */
  lemma {:induction false} GrantsAreMonotone(wants: seq<nat>, less: nat, more: nat, i: nat)
    requires less <= more && i < |wants|
    ensures Grants(wants, less)[i] <= Grants(wants, more)[i]
  {
    if i > 0 {
      GrantsAreMonotone(wants[1..], less - Min(wants[0], less), more - Min(wants[0], more), i - 1);
    }
  }

  /** Appending a class changes nothing for the classes before it. */
  lemma {:induction false} GrantsSnoc(wants: seq<nat>, want: nat, headroom: nat)
    ensures Sum(Grants(wants, headroom)) <= headroom
    ensures Grants(wants + [want], headroom)
         == Grants(wants, headroom) + [Min(want, headroom - Sum(Grants(wants, headroom)))]
  {
    GrantsUseEverything(wants, headroom);
    if wants == [] {
      assert wants + [want] == [want];
      assert Grants([want], headroom) == [Min(want, headroom)] + Grants([want][1..], headroom - Min(want, headroom));
    } else {
      var give := Min(wants[0], headroom);
      GrantsSnoc(wants[1..], want, headroom - give);
      assert (wants + [want])[1..] == wants[1..] + [want];
      assert Grants(wants, headroom)[1..] == Grants(wants[1..], headroom - give);
    }
  }

  lemma {:induction false} SumSnoc(v: seq<nat>, x: nat)
    ensures Sum(v + [x]) == Sum(v) + x
  {
    if v == [] {
      assert v + [x] == [x];
    } else {
      assert (v + [x])[1..] == v[1..] + [x];
      SumSnoc(v[1..], x);
    }
  }
}
