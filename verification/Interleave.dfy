/** `interleave_addresses` of src/happy_eyeballs.rs:11-43: IPv6 and IPv4 addresses in turn,
    IPv6 first (section 4 of RFC 8305). */
module Interleave {
  import opened Net

  /** The addresses of one family, in their order. */
  function Family(addresses: seq<SocketAddr>, v6: bool): (r: seq<SocketAddr>)
    ensures forall a :: a in r ==> a.ip.V6? == v6
  {
    if addresses == [] then []
    else
      var rest := Family(addresses[..|addresses| - 1], v6);
      var last := addresses[|addresses| - 1];
      if last.ip.V6? == v6 then rest + [last] else rest
  }

  /** One of each in turn; what is left of the longer sequence at the end. */
  function Alternate<T>(first: seq<T>, second: seq<T>): seq<T> {
    if first == [] then second
    else if second == [] then first
    else [first[0], second[0]] + Alternate(first[1..], second[1..])
  }

  /** One round of the loop takes the heads of both sequences. */
  lemma AlternateStep<T>(first: seq<T>, second: seq<T>)
    ensures Alternate(first, second) ==
      (if first != [] then [first[0]] else []) + (if second != [] then [second[0]] else []) +
      Alternate(if first != [] then first[1..] else [], if second != [] then second[1..] else [])
  {
    if first != [] && second != [] {
    } else if first != [] {
      assert first == [first[0]] + first[1..];
    } else if second != [] {
      assert second == [second[0]] + second[1..];
    }
  }

  lemma Round<T>(done: seq<T>, a: seq<T>, i: nat, b: seq<T>, j: nat)
    requires i <= |a| && j <= |b|
    ensures var i', j' := if i < |a| then i + 1 else i, if j < |b| then j + 1 else j;
            var done' := if i < |a| then done + [a[i]] else done;
            var done'' := if j < |b| then done' + [b[j]] else done';
            done'' + Alternate(a[i'..], b[j'..]) == done + Alternate(a[i..], b[j..])
  {
    AlternateStep(a[i..], b[j..]);
    assert i < |a| ==> a[i..][1..] == a[i + 1..];
    assert j < |b| ==> b[j..][1..] == b[j + 1..];
  }

  /** The loops of the source over its two vectors and their iterators. */
  method InterleaveAddresses(addresses: seq<SocketAddr>) returns (ordered: seq<SocketAddr>)
    ensures ordered == Alternate(Family(addresses, true), Family(addresses, false))
  {
    var v6Addrs, v4Addrs := [], [];
    for i := 0 to |addresses|
      invariant v6Addrs == Family(addresses[..i], true)
      invariant v4Addrs == Family(addresses[..i], false)
    {
      assert addresses[..i + 1][..i] == addresses[..i];
      if addresses[i].ip.V6? { v6Addrs := v6Addrs + [addresses[i]]; } else { v4Addrs := v4Addrs + [addresses[i]]; }
    }
    assert addresses[..|addresses|] == addresses;
    ordered := [];
    var i, j := 0, 0;
    while true
      invariant i <= |v6Addrs| && j <= |v4Addrs|
      invariant ordered + Alternate(v6Addrs[i..], v4Addrs[j..]) == Alternate(v6Addrs, v4Addrs)
      decreases |v6Addrs| - i + |v4Addrs| - j
    {
      Round(ordered, v6Addrs, i, v4Addrs, j);
      var added := false;
      if i < |v6Addrs| {
        ordered := ordered + [v6Addrs[i]];
        i := i + 1;
        added := true;
      }
      if j < |v4Addrs| {
        ordered := ordered + [v4Addrs[j]];
        j := j + 1;
        added := true;
      }
      if !added { break; }
    }
  }

  lemma {:induction false} AlternateLength<T>(first: seq<T>, second: seq<T>)
    ensures |Alternate(first, second)| == |first| + |second|
    decreases |first|
  {
    if first == [] || second == [] {
    } else {
      AlternateLength(first[1..], second[1..]);
    }
  }

  /** Up to twice the length of the shorter sequence the first stands at even and the second
      at odd positions; after that the longer one goes on alone. */
  lemma {:induction false} AlternatePositions<T>(first: seq<T>, second: seq<T>, k: nat)
    requires k < |first| || k < |second|
    ensures |Alternate(first, second)| == |first| + |second|
    ensures k < |first| && k < |second| ==>
      Alternate(first, second)[2 * k] == first[k] && Alternate(first, second)[2 * k + 1] == second[k]
    ensures |second| <= k < |first| ==> Alternate(first, second)[|second| + k] == first[k]
    ensures |first| <= k < |second| ==> Alternate(first, second)[|first| + k] == second[k]
    decreases k
  {
    AlternateLength(first, second);
    if first != [] && second != [] && k > 0 {
      AlternatePositions(first[1..], second[1..], k - 1);
    }
  }

  lemma {:induction false} FamilyConcat(a: seq<SocketAddr>, b: seq<SocketAddr>, v6: bool)
    ensures Family(a + b, v6) == Family(a, v6) + Family(b, v6)
    decreases |b|
  {
    if b == [] {
      assert a + b == a;
    } else {
      var b' := b[..|b| - 1];
      assert (a + b)[..|a + b| - 1] == a + b';
      FamilyConcat(a, b', v6);
    }
  }

  lemma {:induction false} FamilyPure(s: seq<SocketAddr>, v6: bool, other: bool)
    requires forall a :: a in s ==> a.ip.V6? == v6
    ensures Family(s, other) == if other == v6 then s else []
    decreases |s|
  {
    if s == [] {
    } else {
      FamilyPure(s[..|s| - 1], v6, other);
      assert s == s[..|s| - 1] + [s[|s| - 1]];
    }
  }

  lemma {:induction false} FamilyOfAlternate(first: seq<SocketAddr>, second: seq<SocketAddr>, v6: bool)
    requires forall a :: a in first ==> a.ip.V6?
    requires forall a :: a in second ==> !a.ip.V6?
    ensures Family(Alternate(first, second), v6) == if v6 then first else second
    decreases |first|
  {
    if first == [] {
      FamilyPure(second, false, v6);
    } else if second == [] {
      FamilyPure(first, true, v6);
    } else {
      FamilyOfAlternate(first[1..], second[1..], v6);
      FamilyConcat([first[0], second[0]], Alternate(first[1..], second[1..]), v6);
      assert [first[0], second[0]][..1] == [first[0]];
      assert Family([first[0]], v6) == (if v6 then [first[0]] else []) by { FamilyPure([first[0]], true, v6); }
      assert Family([first[0], second[0]], v6) == if v6 then [first[0]] else [second[0]];
      assert first == [first[0]] + first[1..] && second == [second[0]] + second[1..];
    }
  }

  lemma {:induction false} FamiliesMakeAll(s: seq<SocketAddr>)
    ensures multiset(s) == multiset(Family(s, true)) + multiset(Family(s, false))
    decreases |s|
  {
    if s == [] {
    } else {
      FamiliesMakeAll(s[..|s| - 1]);
      assert s == s[..|s| - 1] + [s[|s| - 1]];
    }
  }

  /** The result is a permutation of the input that keeps the order within each family. */
  lemma InterleavedIsPermutation(addresses: seq<SocketAddr>)
    ensures var ordered := Alternate(Family(addresses, true), Family(addresses, false));
            && multiset(ordered) == multiset(addresses)
            && |ordered| == |addresses|
            && Family(ordered, true) == Family(addresses, true)
            && Family(ordered, false) == Family(addresses, false)
  {
    var ordered := Alternate(Family(addresses, true), Family(addresses, false));
    FamilyOfAlternate(Family(addresses, true), Family(addresses, false), true);
    FamilyOfAlternate(Family(addresses, true), Family(addresses, false), false);
    FamiliesMakeAll(addresses);
    FamiliesMakeAll(ordered);
    assert |ordered| == |multiset(ordered)| && |addresses| == |multiset(addresses)|;
  }
}
