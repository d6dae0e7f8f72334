/** The order in which `handle_udp_packet` tries the addresses of a lookup
    (src/server.rs:737-762): first bindable address from the start, cyclically, and after a
    failure first bindable address after the one that failed. */
module Rotation {
  import opened Wrappers
  import opened Modular

  /** The loop of lines 746-762: the first index at or after `start + offset`, cyclically,
      whose socket can be bound. */
  function Scan(bindable: set<nat>, n: nat, start: nat, offset: nat): (r: Option<nat>)
    requires 0 < n && offset <= n
    ensures r.Some? ==> r.value < n && r.value in bindable
    decreases n - offset
  {
    if offset == n then None
    else if Wrap(start + offset, n) in bindable then Some(Wrap(start + offset, n))
    else Scan(bindable, n, start, offset + 1)
  }

  /** The address at offset `d` from `start` binds. */
  predicate Binds(bindable: set<nat>, n: nat, start: nat, d: nat)
    requires 0 < n
  {
    Wrap(start + d, n) in bindable
  }

  /** The scan yields the first address that binds, at offset `o`, and nothing only if none
      does. */
  lemma {:induction false} ScanFindsFirst(bindable: set<nat>, n: nat, start: nat, offset: nat) returns (o: nat)
    requires 0 < n && offset <= n
    ensures offset <= o <= n
    ensures forall d: nat :: offset <= d < o ==> !Binds(bindable, n, start, d)
    ensures o < n ==> Binds(bindable, n, start, o)
    ensures Scan(bindable, n, start, offset) == if o < n then Some(Wrap(start + o, n)) else None
    decreases n - offset
  {
    if offset == n || Binds(bindable, n, start, offset) {
      o := offset;
    } else {
      o := ScanFindsFirst(bindable, n, start, offset + 1);
    }
  }

  /** The first `k` addresses tried from `start` on when every send fails. */
  function Tries(bindable: set<nat>, n: nat, start: nat, k: nat): (r: seq<nat>)
    requires 0 < n
    ensures |r| <= k
    decreases k
  {
    if k == 0 then []
    else match Scan(bindable, n, start, 0)
      case None => []
      case Some(i) => [i] + Tries(bindable, n, Wrap(i + 1, n), k - 1)
  }

  /** Where the scan after the tries in `tried` starts. */
  function NextStart(tried: seq<nat>, n: nat, start: nat): nat
    requires 0 < n
  {
    if tried == [] then start else Wrap(tried[|tried| - 1] + 1, n)
  }

  /** One more try continues the sequence. */
  lemma {:induction false} TriesExtend(bindable: set<nat>, n: nat, start: nat, k: nat)
    requires 0 < n && |Tries(bindable, n, start, k)| == k
    ensures var tried := Tries(bindable, n, start, k);
            var next := Scan(bindable, n, NextStart(tried, n, start), 0);
            Tries(bindable, n, start, k + 1) == tried + (if next.Some? then [next.value] else [])
    decreases k
  {
    if k == 0 {
    } else {
      var i := Scan(bindable, n, start, 0).value;
      var rest := Tries(bindable, n, Wrap(i + 1, n), k - 1);
      TriesExtend(bindable, n, Wrap(i + 1, n), k - 1);
      assert NextStart(Tries(bindable, n, start, k), n, start) == NextStart(rest, n, Wrap(i + 1, n));
    }
  }

  /** A bindable address at cyclic distance `d` is among the first `d + 1` tries. */
  lemma {:induction false} TriesReach(bindable: set<nat>, n: nat, start: nat, d: nat, k: nat)
    requires 0 < n && d < n && d < k && Wrap(start + d, n) in bindable
    ensures Wrap(start + d, n) in Tries(bindable, n, start, k)
    decreases k
  {
    assert Binds(bindable, n, start, d);
    var o := ScanFindsFirst(bindable, n, start, 0);
    if o < d {
      WrapAdd(start + o, 1, n);
      WrapAdd(start + o + 1, d - o - 1, n);
      TriesReach(bindable, n, Wrap(Wrap(start + o, n) + 1, n), d - o - 1, k - 1);
    }
  }

  /** How far `b` is from `start` going round. */
  lemma Distance(n: nat, start: nat, b: nat) returns (d: nat)
    requires 0 < n && b < n
    ensures d < n && Wrap(start + d, n) == b
  {
    var s := Wrap(start, n);
    d := if s <= b then b - s else b + n - s;
    WrapAdd(start, d, n);
  }

  /** As long as there is a bindable address the scan finds one. */
  lemma {:induction false} TriesGoOn(bindable: set<nat>, n: nat, start: nat, k: nat, b: nat)
    requires 0 < n && b < n && b in bindable
    ensures |Tries(bindable, n, start, k)| == k
    decreases k
  {
    if k == 0 {
    } else {
      var d := Distance(n, start, b);
      assert Binds(bindable, n, start, d);
      var o := ScanFindsFirst(bindable, n, start, 0);
      TriesGoOn(bindable, n, Wrap(Wrap(start + o, n) + 1, n), k - 1, b);
    }
  }

  lemma {:induction false} TriesAreBindable(bindable: set<nat>, n: nat, start: nat, k: nat, b: nat)
    requires 0 < n && b in Tries(bindable, n, start, k)
    ensures b < n && b in bindable
    decreases k
  {
    var i := Scan(bindable, n, start, 0).value;
    if b != i {
      TriesAreBindable(bindable, n, Wrap(i + 1, n), k - 1, b);
    }
  }

  /** Within as many tries as there are addresses every bindable address is tried, and
      nothing else is. */
  lemma EveryBindableIsTried(bindable: set<nat>, n: nat, start: nat, b: nat)
    requires 0 < n && b < n
    ensures b in bindable <==> b in Tries(bindable, n, start, n)
  {
    if b in bindable {
      var d := Distance(n, start, b);
      TriesReach(bindable, n, start, d, n);
    } else if b in Tries(bindable, n, start, n) {
      TriesAreBindable(bindable, n, start, n, b);
    }
  }

  lemma OneFurther(start: nat, j: nat, n: nat)
    requires 0 < n && 0 < j
    ensures Wrap(Wrap(Wrap(start, n) + 1, n) + (j - 1), n) == Wrap(start + j, n)
  {
    WrapAdd(start, 1, n);
    WrapAdd(start + 1, j - 1, n);
  }

  /** If all addresses bind, the tries run round the circle from `start`. */
  lemma {:induction false} AllBindInOrder(bindable: set<nat>, n: nat, start: nat, k: nat, j: nat)
    requires 0 < n && j < k && forall b :: 0 <= b < n ==> b in bindable
    ensures |Tries(bindable, n, start, k)| == k
    ensures Tries(bindable, n, start, k)[j] == Wrap(start + j, n)
    decreases k
  {
    TriesGoOn(bindable, n, start, k, 0);
    var i := Wrap(start, n);
    assert Scan(bindable, n, start, 0) == Some(i);
    if j > 0 {
      var next := Wrap(i + 1, n);
      AllBindInOrder(bindable, n, next, k - 1, j - 1);
      OneFurther(start, j, n);
      assert Tries(bindable, n, start, k) == [i] + Tries(bindable, n, next, k - 1);
    }
  }

  /** So each of the `n` addresses is tried exactly once. */
  lemma AllBindOnce(bindable: set<nat>, n: nat, start: nat, j: nat, k: nat)
    requires 0 < n && forall b :: 0 <= b < n ==> b in bindable
    requires j < k < n
    ensures |Tries(bindable, n, start, n)| == n
    ensures Tries(bindable, n, start, n)[j] != Tries(bindable, n, start, n)[k]
  {
    AllBindInOrder(bindable, n, start, n, j);
    AllBindInOrder(bindable, n, start, n, k);
    WrapApart(start + j, k - j, n);
  }
}
