/** Sums over finite maps, and sizes of images. */
module Sums {
  import opened Bytes

  ghost function SumOf(m: map<Pubkey, nat>): nat {
    if m == map[] then 0 else
      var k :| k in m;
      m[k] + SumOf(m - {k})
  }

  /** The sum does not depend on which key is taken out first. */
  lemma {:induction false} SumRemove(m: map<Pubkey, nat>, k: Pubkey)
    requires k in m
    ensures SumOf(m) == m[k] + SumOf(m - {k})
    decreases |m|
  {
    var j :| j in m && SumOf(m) == m[j] + SumOf(m - {j});
    if j != k {
      SumRemove(m - {j}, k);
      SumRemove(m - {k}, j);
      assert m - {j} - {k} == m - {k} - {j};
    }
  }

  lemma SumPut(m: map<Pubkey, nat>, k: Pubkey, v: nat)
    ensures SumOf(m[k := v]) == SumOf(m) + v - (if k in m then m[k] else 0)
  {
    SumRemove(m[k := v], k);
    assert m[k := v] - {k} == m - {k};
    if k in m {
      SumRemove(m, k);
    } else {
      assert m - {k} == m;
    }
  }

  function Ones(m: map<Pubkey, nat>): set<Pubkey> {
    set k | k in m && m[k] == 1
  }

  /** A sum of zeros and ones counts the ones. */
  lemma {:induction false} SumOfBits(m: map<Pubkey, nat>)
    requires forall k :: k in m ==> m[k] <= 1
    ensures SumOf(m) == |Ones(m)|
    decreases |m|
  {
    if m == map[] {
      assert Ones(m) == {};
    } else {
      var j :| j in m;
      SumRemove(m, j);
      var rest := m - {j};
      SumOfBits(rest);
      if m[j] == 1 {
        assert Ones(m) == Ones(rest) + {j};
      } else {
        assert Ones(m) == Ones(rest);
      }
    }
  }

  ghost predicate InjectiveOn(f: Pubkey -> Pubkey, s: set<Pubkey>) {
    forall x, y :: x in s && y in s && f(x) == f(y) ==> x == y
  }

  lemma {:induction false} ImageSize(f: Pubkey -> Pubkey, s: set<Pubkey>)
    requires InjectiveOn(f, s)
    ensures |set x | x in s :: f(x)| == |s|
  {
    if s == {} {
      assert (set x | x in s :: f(x)) == {};
    } else {
      var y :| y in s;
      var rest := s - {y};
      ImageSize(f, rest);
      assert (set x | x in s :: f(x)) == (set x | x in rest :: f(x)) + {f(y)};
    }
  }

  lemma {:induction false} SubsetSize(s: set<Pubkey>, t: set<Pubkey>)
    requires s <= t
    ensures |s| <= |t|
  {
    if s != {} {
      var x :| x in s;
      SubsetSize(s - {x}, t - {x});
    }
  }
}
