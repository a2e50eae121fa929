/** The records of a tree: their order, the map they stand for, and what changing one
    leaf does to them. */
module BTreeRecords {
  import opened Flat
  import opened BTreeShape

  ghost predicate Ascending(s: seq<(nat, nat)>) {
    forall i, j :: 0 <= i < j < |s| ==> s[i].0 < s[j].0
  }

  /** The last-write-wins map of a list of key-value pairs. */
  function MapOf(s: seq<(nat, nat)>): (m: map<nat, nat>) {
    if s == [] then map[] else MapOf(s[..|s| - 1])[s[|s| - 1].0 := s[|s| - 1].1]
  }

  lemma {:induction false} MapOfHas(s: seq<(nat, nat)>, k: nat)
    ensures k in MapOf(s) <==> exists i :: 0 <= i < |s| && s[i].0 == k
  {
    if s != [] {
      var t := s[..|s| - 1];
      MapOfHas(t, k);
      if k in MapOf(t) {
        var i :| 0 <= i < |t| && t[i].0 == k;
        assert s[i].0 == k;
      }
      if k in MapOf(s) && k !in MapOf(t) {
        assert s[|s| - 1].0 == k;
      }
      if i :| 0 <= i < |s| && s[i].0 == k {
        assert i < |t| ==> t[i].0 == k;
      }
    }
  }

  lemma {:induction false} MapOfAt(s: seq<(nat, nat)>, i: nat)
    requires Ascending(s) && i < |s|
    ensures s[i].0 in MapOf(s) && MapOf(s)[s[i].0] == s[i].1
  {
    var t := s[..|s| - 1];
    if i < |t| {
      assert s[i].0 < s[|s| - 1].0;
      assert t[i] == s[i];
      MapOfAt(t, i);
    }
  }

  /** Distinct keys: as many map entries as records. */
  lemma {:induction false} MapOfSize(s: seq<(nat, nat)>)
    requires Ascending(s)
    ensures |MapOf(s)| == |s|
  {
    if s != [] {
      var t := s[..|s| - 1];
      MapOfSize(t);
      MapOfHas(t, s[|s| - 1].0);
      assert forall i :: 0 <= i < |t| ==> t[i].0 == s[i].0;
      assert MapOf(s).Keys == MapOf(t).Keys + {s[|s| - 1].0};
    }
  }

  /** `t` is `s` with `e` inserted at position `p`. */
  ghost predicate Inserted(s: seq<(nat, nat)>, t: seq<(nat, nat)>, p: nat, e: (nat, nat)) {
    && p <= |s| && |t| == |s| + 1 && t[p] == e
    && (forall i :: 0 <= i < p ==> t[i] == s[i])
    && (forall i {:trigger t[i]} :: p < i < |t| ==> t[i] == s[i - 1])
  }

  lemma InsertedHas(s: seq<(nat, nat)>, t: seq<(nat, nat)>, p: nat, e: (nat, nat), x: nat)
    requires Inserted(s, t, p, e)
    ensures x in MapOf(t) <==> x in MapOf(s)[e.0 := e.1]
  {
    hide MapOf;
    MapOfHas(s, x);
    MapOfHas(t, x);
    if i :| 0 <= i < |s| && s[i].0 == x {
      assert t[if i < p then i else i + 1].0 == x;
    }
    assert t[p].0 == e.0;
  }

  /** Inserting a fresh key at its place. */
  lemma MapOfInsert(s: seq<(nat, nat)>, t: seq<(nat, nat)>, p: nat, e: (nat, nat))
    requires Inserted(s, t, p, e) && Ascending(s) && Ascending(t)
    ensures MapOf(t) == MapOf(s)[e.0 := e.1]
  {
    hide MapOf;
    forall x ensures x in MapOf(t) <==> x in MapOf(s)[e.0 := e.1] {
      InsertedHas(s, t, p, e, x);
    }
    forall x | x in MapOf(t) ensures MapOf(t)[x] == MapOf(s)[e.0 := e.1][x] {
      MapOfHas(t, x);
      var i :| 0 <= i < |t| && t[i].0 == x;
      MapOfAt(t, i);
      if i < p {
        MapOfAt(s, i);
        assert t[i].0 < t[p].0;
      } else if i > p {
        MapOfAt(s, i - 1);
        assert t[p].0 < t[i].0;
      }
    }
  }

  /** Overwriting the value of a key that is present. */
  lemma MapOfUpdate(s: seq<(nat, nat)>, p: nat, v: nat)
    requires p < |s| && Ascending(s)
    ensures Ascending(s[p := (s[p].0, v)])
    ensures MapOf(s[p := (s[p].0, v)]) == MapOf(s)[s[p].0 := v]
  {
    var t := s[p := (s[p].0, v)];
    forall i | 0 <= i < |t| ensures t[i].0 == s[i].0 { }
    forall x ensures x in MapOf(t) <==> x in MapOf(s)[s[p].0 := v] {
      MapOfHas(s, x);
      MapOfHas(t, x);
      if i :| 0 <= i < |s| && s[i].0 == x { assert t[i].0 == x; }
      if i :| 0 <= i < |t| && t[i].0 == x { assert s[i].0 == x; }
      assert s[p].0 == s[p].0;
      MapOfAt(s, p);
    }
    forall x | x in MapOf(t) ensures MapOf(t)[x] == MapOf(s)[s[p].0 := v][x] {
      MapOfHas(t, x);
      var i :| 0 <= i < |t| && t[i].0 == x;
      MapOfAt(t, i);
      MapOfAt(s, i);
      assert i < p ==> s[i].0 < s[p].0;
      assert i > p ==> s[p].0 < s[i].0;
    }
  }

  // ---- records of a leaf level

  /** Where the records of the `i`-th leaf start among all records. */
  function Start(bs: seq<Node>, lev: seq<Entry>, i: nat): nat
    requires i <= |lev|
  {
    |Pairs(bs, lev[..i])|
  }

  lemma RecordAt(bs: seq<Node>, lev: seq<Entry>, i: nat, j: nat)
    requires i < |lev| && j < |At(bs, lev[i].bno).keys|
    ensures Start(bs, lev, i) + j < |Pairs(bs, lev)|
    ensures Pairs(bs, lev)[Start(bs, lev, i) + j] == Records(At(bs, lev[i].bno))[j]
  {
    FlatMapSplit(RecordsOf(bs), lev, i);
  }

  lemma StartMonotone(bs: seq<Node>, lev: seq<Entry>, i: nat, j: nat)
    requires i < j <= |lev|
    ensures Start(bs, lev, i) + |At(bs, lev[i].bno).keys| <= Start(bs, lev, j)
  {
    assert lev[..j] == lev[..i] + ([lev[i]] + lev[i + 1..j]);
    FlatMapAppend(RecordsOf(bs), lev[..i], [lev[i]] + lev[i + 1..j]);
    FlatMapAppend(RecordsOf(bs), [lev[i]], lev[i + 1..j]);
    FlatMapOne(RecordsOf(bs), lev[i]);
  }

  lemma BoundsApart(lev: seq<Entry>, i: nat, j: nat)
    requires i < j < |lev| && Sorted(lev)
    ensures lev[i].ub <= Lb(lev, j)
  {
  }

  /** Records come in strictly increasing key order. */
  lemma PairsAscending(bs: seq<Node>, lev: seq<Entry>)
    requires Leaves(bs, lev) && Sorted(lev)
    ensures Ascending(Pairs(bs, lev))
  {
    var s := Pairs(bs, lev);
    forall x, y | 0 <= x < y < |s| ensures s[x].0 < s[y].0 {
      var a, b := FlatMapFind(RecordsOf(bs), lev, x);
      var c, d := FlatMapFind(RecordsOf(bs), lev, y);
      assert LeafOk(bs, lev, a) && LeafOk(bs, lev, c);
      if c < a {
        StartMonotone(bs, lev, c, a);
        assert false;
      } else if a < c {
        BoundsApart(lev, a, c);
      }
    }
  }

  /** A key inside the range of one leaf is stored if and only if that leaf has it. */
  lemma KeyIsInItsLeaf(bs: seq<Node>, lev: seq<Entry>, i: nat, k: nat)
    requires i < |lev| && Leaves(bs, lev) && Sorted(lev) && Lb(lev, i) <= k < lev[i].ub
    ensures k in MapOf(Pairs(bs, lev)) <==> k in At(bs, lev[i].bno).keys
  {
    var s, n := Pairs(bs, lev), At(bs, lev[i].bno);
    MapOfHas(s, k);
    if p :| 0 <= p < |s| && s[p].0 == k {
      var a, b := FlatMapFind(RecordsOf(bs), lev, p);
      assert LeafOk(bs, lev, a);
      if a < i {
        BoundsApart(lev, a, i);
        assert false;
      } else if i < a {
        BoundsApart(lev, i, a);
        assert false;
      }
      assert n.keys[b] == k;
    }
    if k in n.keys {
      var j :| 0 <= j < |n.keys| && n.keys[j] == k;
      RecordAt(bs, lev, i, j);
    }
  }

  /** The value found in a leaf is the value of the map. */
  lemma LeafValue(bs: seq<Node>, lev: seq<Entry>, i: nat, j: nat)
    requires i < |lev| && Leaves(bs, lev) && Sorted(lev)
    requires j < |At(bs, lev[i].bno).keys| == |At(bs, lev[i].bno).vals|
    ensures var n := At(bs, lev[i].bno); var m := MapOf(Pairs(bs, lev));
      n.keys[j] in m && m[n.keys[j]] == n.vals[j]
  {
    PairsAscending(bs, lev);
    RecordAt(bs, lev, i, j);
    MapOfAt(Pairs(bs, lev), Start(bs, lev, i) + j);
  }

  // ---- changing one leaf

  function WithRecord(n: Node, j: nat, key: nat, val: nat): (r: Node)
    requires j <= |n.keys| && j <= |n.vals|
  {
    n.(keys := n.keys[..j] + [key] + n.keys[j..], vals := n.vals[..j] + [val] + n.vals[j..])
  }

  /** `j` is the place of a key that the leaf does not have. */
  ghost predicate Gap(ks: seq<nat>, j: nat, key: nat) {
    && j <= |ks|
    && (forall i :: 0 <= i < j ==> ks[i] < key)
    && (forall i :: j <= i < |ks| ==> key < ks[i])
  }

  lemma PairsWithRecord(bs: seq<Node>, bs': seq<Node>, lev: seq<Entry>, i: nat, j: nat, key: nat, val: nat)
    requires i < |lev| && Distinct(lev)
    requires forall k :: 0 <= k < |lev| ==> lev[k].bno < |bs|
    requires Body(bs[lev[i].bno], 0) && j <= |bs[lev[i].bno].keys|
    requires bs' == bs[lev[i].bno := WithRecord(bs[lev[i].bno], j, key, val)]
    ensures var s := Pairs(bs, lev); var p := Start(bs, lev, i) + j;
      Inserted(s, Pairs(bs', lev), p, (key, val))
  {
    var n, n' := bs[lev[i].bno], bs'[lev[i].bno];
    PairsAround(bs, bs', lev, i);
    var a, c := Pairs(bs, lev[..i]), Pairs(bs, lev[i + 1..]);
    var r := Records(n);
    assert Records(n') == r[..j] + [(key, val)] + r[j..];
    assert Pairs(bs, lev) == a + r + c;
    assert Pairs(bs', lev) == a + (r[..j] + [(key, val)] + r[j..]) + c;
  }

  /** One leaf changed: the records before and after it did not. */
  lemma PairsAround(bs: seq<Node>, bs': seq<Node>, lev: seq<Entry>, i: nat)
    requires i < |lev| && Distinct(lev) && |bs'| == |bs|
    requires forall k :: 0 <= k < |lev| ==> lev[k].bno < |bs|
    requires forall b :: 0 <= b < |bs| && b != lev[i].bno ==> bs'[b] == bs[b]
    ensures Pairs(bs, lev) == Pairs(bs, lev[..i]) + Records(bs[lev[i].bno]) + Pairs(bs, lev[i + 1..])
    ensures Pairs(bs', lev) == Pairs(bs, lev[..i]) + Records(bs'[lev[i].bno]) + Pairs(bs, lev[i + 1..])
  {
    FlatMapSplit(RecordsOf(bs), lev, i);
    FlatMapSplit(RecordsOf(bs'), lev, i);
    assert Agree(bs, bs', lev[..i]) && Agree(bs, bs', lev[i + 1..]);
    ExpandFrame(bs, bs', lev[..i]);
    ExpandFrame(bs, bs', lev[i + 1..]);
  }

  lemma PairsWithValue(bs: seq<Node>, bs': seq<Node>, lev: seq<Entry>, i: nat, j: nat, val: nat)
    requires i < |lev| && Distinct(lev)
    requires forall k :: 0 <= k < |lev| ==> lev[k].bno < |bs|
    requires Body(bs[lev[i].bno], 0) && j < |bs[lev[i].bno].keys|
    requires bs' == bs[lev[i].bno := bs[lev[i].bno].(vals := bs[lev[i].bno].vals[j := val])]
    ensures var s := Pairs(bs, lev); var p := Start(bs, lev, i) + j;
      p < |s| && s[p].0 == bs[lev[i].bno].keys[j] && Pairs(bs', lev) == s[p := (s[p].0, val)]
  {
    var n, n' := bs[lev[i].bno], bs'[lev[i].bno];
    PairsAround(bs, bs', lev, i);
    RecordAt(bs, lev, i, j);
    assert Records(n') == Records(n)[j := (n.keys[j], val)];
  }

  lemma WithinInsert(ks: seq<nat>, j: nat, key: nat, lo: nat, hi: nat)
    requires Within(ks, lo, hi) && Gap(ks, j, key) && lo <= key < hi
    ensures Within(ks[..j] + [key] + ks[j..], lo, hi)
  {
    var t := ks[..j] + [key] + ks[j..];
    assert forall i :: 0 <= i < j ==> t[i] == ks[i];
    assert t[j] == key;
    assert forall i :: j < i < |t| ==> t[i] == ks[i - 1];
  }

  /** The leaf level after one leaf was rewritten with the same header. */
  lemma LeafLevelRewritten(bs: seq<Node>, bs': seq<Node>, lev: seq<Entry>, top: bool, i: nat, over: int)
    requires i < |lev| && LevelOn(bs, lev, 0, top, NO_BLOCK) && |bs'| == |bs|
    requires lev[i].bno < |bs| && NodeOk(bs', lev[i].bno, 0, top, over) && LeafOk(bs', lev, i)
    requires bs'[lev[i].bno].prev == bs[lev[i].bno].prev && bs'[lev[i].bno].next == bs[lev[i].bno].next
    requires forall b :: 0 <= b < |bs| && b != lev[i].bno ==> bs'[b] == bs[b]
    ensures LevelOn(bs', lev, 0, top, over)
  {
    forall k | 0 <= k < |lev| ensures NodeOk(bs', lev[k].bno, 0, top, over) {
      assert NodeOk(bs, lev[k].bno, 0, top, NO_BLOCK);
    }
    forall k | 0 <= k < |lev| ensures LinkOk(bs', lev, k) && LeafOk(bs', lev, k) {
      assert LinkOk(bs, lev, k) && LeafOk(bs, lev, k);
      assert k < i ==> lev[k].bno != lev[i].bno;
      assert k > i ==> lev[i].bno != lev[k].bno;
    }
  }

  /** A tree whose leaf level alone was rewritten. */
  lemma LeafLevelKeepsTree(bs: seq<Node>, bs': seq<Node>, levels: seq<seq<Entry>>, b: nat, over: int)
    requires Tree(bs, levels, NO_BLOCK) && b < |bs| == |bs'| && bs[b].level == 0
    requires forall c :: 0 <= c < |bs| && c != b ==> bs'[c] == bs[c]
    requires LevelOn(bs', levels[0], 0, |levels| == 1, over)
    ensures Tree(bs', levels, over)
  {
    hide LevelOn, Expand, Pairs;
    forall m | 0 <= m < |levels| ensures LevelOk(bs', levels, m, over) {
      assert LevelOk(bs, levels, m, NO_BLOCK);
      if m > 0 {
        LevelFrameOn(bs, bs', levels[m], m, m == |levels| - 1, NO_BLOCK, over);
      }
    }
  }

  /** Inserting a record in its leaf: the leaf may become full; the records gain exactly
      that one. */
  lemma InsertKeepsTree(bs: seq<Node>, levels: seq<seq<Entry>>, i: nat, j: nat, key: nat, val: nat)
    requires Tree(bs, levels, NO_BLOCK) && i < |levels[0]|
    requires levels[0][i].bno < |bs| && Body(bs[levels[0][i].bno], 0) && Gap(bs[levels[0][i].bno].keys, j, key)
    requires Lb(levels[0], i) <= key < levels[0][i].ub
    ensures var b := levels[0][i].bno; var bs' := bs[b := WithRecord(bs[b], j, key, val)];
      && Tree(bs', levels, b)
      && MapOf(Pairs(bs', levels[0])) == MapOf(Pairs(bs, levels[0]))[key := val]
  {
    var lev := levels[0];
    var b := lev[i].bno;
    var bs' := bs[b := WithRecord(bs[b], j, key, val)];
    TreeLevels(bs, levels, NO_BLOCK, 0);
    InsertInLeaf(bs, lev, |levels| == 1, i, j, key, val);
    LeafLevelKeepsTree(bs, bs', levels, b, b);
  }

  lemma InsertInLeaf(bs: seq<Node>, lev: seq<Entry>, top: bool, i: nat, j: nat, key: nat, val: nat)
    requires LevelOn(bs, lev, 0, top, NO_BLOCK) && i < |lev|
    requires lev[i].bno < |bs| && Body(bs[lev[i].bno], 0) && Gap(bs[lev[i].bno].keys, j, key)
    requires Lb(lev, i) <= key < lev[i].ub
    ensures var b := lev[i].bno; var bs' := bs[b := WithRecord(bs[b], j, key, val)];
      && bs[b].level == 0 && LevelOn(bs', lev, 0, top, b)
      && MapOf(Pairs(bs', lev)) == MapOf(Pairs(bs, lev))[key := val]
  {
    hide MapOf, Ascending, Pairs;
    var b := lev[i].bno;
    var n' := WithRecord(bs[b], j, key, val);
    var bs' := bs[b := n'];
    assert NodeOk(bs, b, 0, top, NO_BLOCK) && LeafOk(bs, lev, i);
    WithinInsert(bs[b].keys, j, key, Lb(lev, i), lev[i].ub);
    assert NodeOk(bs', b, 0, top, b) && LeafOk(bs', lev, i);
    LeafLevelRewritten(bs, bs', lev, top, i, b);
    forall k | 0 <= k < |lev| ensures lev[k].bno < |bs| { assert NodeOk(bs, lev[k].bno, 0, top, NO_BLOCK); }
    PairsWithRecord(bs, bs', lev, i, j, key, val);
    PairsAscending(bs, lev);
    PairsAscending(bs', lev);
    MapOfInsert(Pairs(bs, lev), Pairs(bs', lev), Start(bs, lev, i) + j, (key, val));
  }

  /** Overwriting a value in place. */
  lemma UpdateKeepsTree(bs: seq<Node>, levels: seq<seq<Entry>>, i: nat, j: nat, val: nat)
    requires Tree(bs, levels, NO_BLOCK) && i < |levels[0]|
    requires levels[0][i].bno < |bs| && Body(bs[levels[0][i].bno], 0) && j < |bs[levels[0][i].bno].keys|
    ensures var b := levels[0][i].bno; var bs' := bs[b := bs[b].(vals := bs[b].vals[j := val])];
      && Tree(bs', levels, NO_BLOCK)
      && MapOf(Pairs(bs', levels[0])) == MapOf(Pairs(bs, levels[0]))[bs[b].keys[j] := val]
  {
    var lev := levels[0];
    var b := lev[i].bno;
    var bs' := bs[b := bs[b].(vals := bs[b].vals[j := val])];
    TreeLevels(bs, levels, NO_BLOCK, 0);
    UpdateInLeaf(bs, lev, |levels| == 1, i, j, val);
    LeafLevelKeepsTree(bs, bs', levels, b, NO_BLOCK);
  }

  lemma UpdateInLeaf(bs: seq<Node>, lev: seq<Entry>, top: bool, i: nat, j: nat, val: nat)
    requires LevelOn(bs, lev, 0, top, NO_BLOCK) && i < |lev|
    requires lev[i].bno < |bs| && Body(bs[lev[i].bno], 0) && j < |bs[lev[i].bno].keys|
    ensures var b := lev[i].bno; var bs' := bs[b := bs[b].(vals := bs[b].vals[j := val])];
      && bs[b].level == 0 && LevelOn(bs', lev, 0, top, NO_BLOCK)
      && MapOf(Pairs(bs', lev)) == MapOf(Pairs(bs, lev))[bs[b].keys[j] := val]
  {
    hide MapOf, Ascending, Pairs;
    var b := lev[i].bno;
    var bs' := bs[b := bs[b].(vals := bs[b].vals[j := val])];
    assert NodeOk(bs, b, 0, top, NO_BLOCK) && LeafOk(bs, lev, i);
    assert NodeOk(bs', b, 0, top, NO_BLOCK) && LeafOk(bs', lev, i);
    LeafLevelRewritten(bs, bs', lev, top, i, NO_BLOCK);
    forall k | 0 <= k < |lev| ensures lev[k].bno < |bs| { assert NodeOk(bs, lev[k].bno, 0, top, NO_BLOCK); }
    PairsWithValue(bs, bs', lev, i, j, val);
    PairsAscending(bs, lev);
    MapOfUpdate(Pairs(bs, lev), Start(bs, lev, i) + j, val);
  }
}
