/** How many keys and blocks a tree of a given height must have. */
module BTreeBounds {
  import opened Flat
  import opened BTreeShape

  function Pow(b: nat, n: nat): (r: nat) { if n == 0 then 1 else b * Pow(b, n - 1) }

  lemma {:induction false} FlatMapAtLeast<S, T>(f: S -> seq<T>, s: seq<S>, k: nat)
    requires forall i :: 0 <= i < |s| ==> |f(s[i])| >= k
    ensures |FlatMap(f, s)| >= k * |s|
  {
    if s != [] {
      FlatMapAtLeast(f, s[1..], k);
    }
  }

  /** Each level below the root's children has at least 168 times the blocks of the
      level above it. */
  lemma LevelGrows(bs: seq<Node>, levels: seq<seq<Entry>>, l: nat)
    requires Tree(bs, levels, NO_BLOCK) && 0 < l < |levels|
    ensures |levels[l - 1]| >= (if l == |levels| - 1 then 2 else (NODE_MIN + 1) * |levels[l]|)
  {
    assert LevelOk(bs, levels, l, NO_BLOCK);
    var lev := levels[l];
    forall i | 0 <= i < |lev| ensures |KidsOf(bs)(lev[i])| >= (if l == |levels| - 1 then 2 else NODE_MIN + 1) {
      assert NodeOk(bs, lev[i].bno, l, l == |levels| - 1, NO_BLOCK);
    }
    FlatMapAtLeast(KidsOf(bs), lev, if l == |levels| - 1 then 2 else NODE_MIN + 1);
  }

  lemma {:induction false} LevelSize(bs: seq<Node>, levels: seq<seq<Entry>>, k: nat)
    requires Tree(bs, levels, NO_BLOCK) && 0 < k < |levels|
    ensures |levels[|levels| - 1 - k]| >= 2 * Pow(168, k - 1)
  {
    LevelGrows(bs, levels, |levels| - k);
    if k > 1 {
      LevelSize(bs, levels, k - 1);
    }
  }

  /** A tree whose root is at level L >= 1 holds at least 252 * 168^(L-1) records. */
  lemma HeightNeedsRecords(bs: seq<Node>, levels: seq<seq<Entry>>)
    requires Tree(bs, levels, NO_BLOCK) && |levels| > 1
    ensures |Pairs(bs, levels[0])| >= 252 * Pow(168, |levels| - 2)
  {
    LevelSize(bs, levels, |levels| - 1);
    assert LevelOk(bs, levels, 0, NO_BLOCK);
    var lev := levels[0];
    forall i | 0 <= i < |lev| ensures |RecordsOf(bs)(lev[i])| >= LEAF_MIN {
      assert NodeOk(bs, lev[i].bno, 0, false, NO_BLOCK);
    }
    FlatMapAtLeast(RecordsOf(bs), lev, LEAF_MIN);
  }

  lemma {:induction false} PowIncreases(m: nat, n: nat)
    requires m <= n
    ensures Pow(168, m) <= Pow(168, n)
  {
    if m < n { PowIncreases(m, n - 1); }
  }

  /** Below 252 * 168^4 records the six entries of a saved path suffice. */
  lemma PathSuffices(bs: seq<Node>, levels: seq<seq<Entry>>)
    requires Tree(bs, levels, NO_BLOCK) && |Pairs(bs, levels[0])| < 252 * Pow(168, 4)
    ensures |levels| < 6
  {
    if |levels| >= 6 {
      HeightNeedsRecords(bs, levels);
      PowIncreases(4, |levels| - 2);
    }
  }

  lemma {:induction false} DistinctFits(lev: seq<Entry>, n: nat)
    requires Distinct(lev) && forall i :: 0 <= i < |lev| ==> lev[i].bno < n
    ensures |lev| <= n
  {
    var used := set i | 0 <= i < |lev| :: lev[i].bno;
    DistinctSet(lev, |lev|);
    assert lev[..|lev|] == lev;
    assert used <= Below(n);
    SubsetSize(used, Below(n));
  }

  function Below(n: nat): (r: set<nat>)
    ensures |r| == n && forall b :: b in r <==> 0 <= b < n
  {
    if n == 0 then {} else Below(n - 1) + {n - 1}
  }

  lemma {:induction false} SubsetSize(a: set<nat>, b: set<nat>)
    requires a <= b
    ensures |a| <= |b|
  {
    if a != {} {
      var x :| x in a;
      SubsetSize(a - {x}, b - {x});
    }
  }

  lemma {:induction false} DistinctSet(lev: seq<Entry>, n: nat)
    requires Distinct(lev) && n <= |lev|
    ensures |set i | 0 <= i < n :: lev[i].bno| == n
  {
    if n > 0 {
      DistinctSet(lev, n - 1);
      var s, t := set i | 0 <= i < n :: lev[i].bno, set i | 0 <= i < n - 1 :: lev[i].bno;
      assert lev[n - 1].bno !in t;
      assert s == t + {lev[n - 1].bno};
    }
  }

  /** Fewer than 2 * 168^3 blocks leave the root at level 3 or below. */
  lemma BlocksBoundHeight(bs: seq<Node>, levels: seq<seq<Entry>>)
    requires Tree(bs, levels, NO_BLOCK) && |bs| < 2 * Pow(168, 3)
    ensures |levels| <= 4
  {
    if |levels| > 4 {
      LevelSize(bs, levels, |levels| - 1);
      PowIncreases(3, |levels| - 2);
      assert LevelOk(bs, levels, 0, NO_BLOCK);
      forall i | 0 <= i < |levels[0]| ensures levels[0][i].bno < |bs| {
        assert NodeOk(bs, levels[0][i].bno, 0, false, NO_BLOCK);
      }
      DistinctFits(levels[0], |bs|);
    }
  }

  lemma Pow168()
    ensures Pow(168, 3) == 4741632 && Pow(168, 4) == 796594176
  {
    assert Pow(168, 0) == 1;
    assert Pow(168, 1) == 168;
    assert Pow(168, 2) == 28224;
    assert Pow(168, 3) == 4741632;
  }

  /** Interior blocks are fewer than the blocks right below them. */
  lemma {:induction false} TotalFrom(bs: seq<Node>, levels: seq<seq<Entry>>, l: nat)
    requires Tree(bs, levels, NO_BLOCK) && l + 1 < |levels|
    ensures Total(levels[l..]) <= 2 * |levels[l]|
    decreases |levels| - l
  {
    assert levels[l..][1..] == levels[l + 1..];
    LevelGrows(bs, levels, l + 1);
    if l + 2 < |levels| {
      TotalFrom(bs, levels, l + 1);
    } else {
      assert levels[l + 1..] == [levels[l + 1]];
      assert Total(levels[l + 1..]) == 1;
    }
  }

  /** No block is lost, and every leaf is half full: 63 records pay for a block. */
  lemma BlocksPerRecord(bs: seq<Node>, levels: seq<seq<Entry>>)
    requires Tree(bs, levels, NO_BLOCK) && |bs| == Total(levels)
    ensures if |levels| == 1 then |bs| == 1 else 63 * |bs| <= |Pairs(bs, levels[0])|
  {
    if |levels| == 1 {
      assert levels[1..] == [];
    } else {
      TotalFrom(bs, levels, 0);
      assert levels[0..] == levels;
      assert LevelOk(bs, levels, 0, NO_BLOCK);
      var lev := levels[0];
      forall i | 0 <= i < |lev| ensures |RecordsOf(bs)(lev[i])| >= LEAF_MIN {
        assert NodeOk(bs, lev[i].bno, 0, false, NO_BLOCK);
      }
      FlatMapAtLeast(RecordsOf(bs), lev, LEAF_MIN);
    }
  }
}
