/** Descending from the root: which child covers a key, and the saved path. */
module BTreePath {
  import opened BTreeShape

  const ROOT_ADDR: nat := 0xffff_ffff
  const MAX_DEPTH: nat := 6

  datatype PathNode = PathNode(bno: nat, index: nat)

  ghost predicate Increasing(ks: seq<nat>) {
    forall i, j :: 0 <= i < j < |ks| ==> ks[i] < ks[j]
  }

  /** The keys of an interior node increase. */
  lemma NodeKeysIncrease(bs: seq<Node>, lev: seq<Entry>, q: nat)
    requires q < |lev| && Body(At(bs, lev[q].bno), 1) && Sorted(Expand(bs, lev))
    ensures Increasing(At(bs, lev[q].bno).keys)
  {
    var n := At(bs, lev[q].bno);
    forall i, j | 0 <= i < j < |n.keys| ensures n.keys[i] < n.keys[j] {
      ChildPos(bs, lev, q, i);
      ChildPos(bs, lev, q, j);
    }
  }

  /** `c` is the child a search for `key` follows. */
  ghost predicate Follows(ks: seq<nat>, c: nat, key: nat) {
    && c <= |ks|
    && (forall i :: 0 <= i < c ==> ks[i] <= key)
    && (forall i :: c <= i < |ks| ==> key < ks[i])
  }

  /** The followed child covers the key, if its parent does. */
  lemma ChildCovers(bs: seq<Node>, lev: seq<Entry>, l: nat, top: bool, over: int, q: nat, c: nat, key: nat)
    requires l > 0 && q < |lev| && Shape(bs, lev, l, top, over)
    requires Lb(lev, q) <= key < lev[q].ub && Follows(At(bs, lev[q].bno).keys, c, key)
    ensures var low := Expand(bs, lev); var i := Off(bs, lev, q) + c;
      c < |At(bs, lev[q].bno).kids| && i < |low| && low[i].bno == At(bs, lev[q].bno).kids[c] &&
      Lb(low, i) <= key < low[i].ub
  {
    var n := At(bs, lev[q].bno);
    forall k | 0 <= k < |lev| ensures Body(At(bs, lev[k].bno), 1) {
      assert NodeOk(bs, lev[k].bno, l, top, over);
    }
    assert Body(n, 1);
    ChildPos(bs, lev, q, c);
    if c > 0 {
      ChildPos(bs, lev, q, c - 1);
    } else {
      ChildBefore(bs, lev, q);
    }
  }

  /** The path entry at level `m` leads from `pos[m]` to `pos[m - 1]`. */
  ghost predicate StepAt(bs: seq<Node>, levels: seq<seq<Entry>>, path: seq<PathNode>, pos: seq<nat>, m: nat)
    requires 0 < m < |levels| == |pos| && |levels| < |path|
  {
    && pos[m] < |levels[m]|
    && path[m].bno == levels[m][pos[m]].bno
    && path[m].index < |At(bs, path[m].bno).kids|
    && pos[m - 1] == Off(bs, levels[m], pos[m]) + path[m].index
  }

  /** The saved path above level `l`, where the descent stands at position `pos[l]`. */
  ghost predicate PathFrom(bs: seq<Node>, levels: seq<seq<Entry>>, path: seq<PathNode>, pos: seq<nat>, l: nat) {
    && l < |levels| == |pos| && |levels| < |path| && pos[l] < |levels[l]|
    && path[|levels|].index == ROOT_ADDR
    && forall m :: l < m < |levels| ==> StepAt(bs, levels, path, pos, m)
  }

  /** Rewriting blocks and lists at or below level `l` leaves the path above `l + 1` alone. */
  lemma PathAbove(bs: seq<Node>, bs': seq<Node>, levels: seq<seq<Entry>>, levels': seq<seq<Entry>>,
                  path: seq<PathNode>, pos: seq<nat>, l: nat, over: int)
    requires PathFrom(bs, levels, path, pos, l) && Tree(bs, levels, over) && l + 1 < |levels|
    requires |levels'| == |levels| && forall m :: l < m < |levels| ==> levels'[m] == levels[m]
    requires |bs| <= |bs'| && forall b :: 0 <= b < |bs| && bs[b].level > l + 1 ==> bs'[b] == bs[b]
    ensures PathFrom(bs', levels', path, pos, l + 1)
  {
    hide Expand;
    assert StepAt(bs, levels, path, pos, l + 1);
    forall m | l + 1 < m < |levels| ensures StepAt(bs', levels', path, pos, m) {
      assert StepAt(bs, levels, path, pos, m);
      StepFrame(bs, bs', levels, levels', path, pos, m, over);
    }
  }

  lemma StepFrame(bs: seq<Node>, bs': seq<Node>, levels: seq<seq<Entry>>, levels': seq<seq<Entry>>,
                  path: seq<PathNode>, pos: seq<nat>, m: nat, over: int)
    requires 0 < m < |levels| == |pos| == |levels'| && |levels| < |path|
    requires Tree(bs, levels, over) && StepAt(bs, levels, path, pos, m) && levels'[m] == levels[m]
    requires |bs| <= |bs'| && forall b :: 0 <= b < |bs| && bs[b].level == m ==> bs'[b] == bs[b]
    ensures StepAt(bs', levels', path, pos, m)
  {
    assert LevelOk(bs, levels, m, over);
    var lev := levels[m];
    forall k | 0 <= k < |lev|
      ensures lev[k].bno < |bs| && bs'[lev[k].bno] == bs[lev[k].bno]
    {
      assert NodeOk(bs, lev[k].bno, m, m == |levels| - 1, over);
    }
    ExpandFrame(bs, bs', lev[..pos[m]]);
  }

  /** Where a block stands on the path: below the root, its parent holds it. */
  lemma PathChild(bs: seq<Node>, levels: seq<seq<Entry>>, path: seq<PathNode>, pos: seq<nat>, l: nat, over: int)
    requires PathFrom(bs, levels, path, pos, l) && Tree(bs, levels, over)
    ensures levels[l][pos[l]].bno < |bs| && bs[levels[l][pos[l]].bno].level == l
    ensures Body(bs[levels[l][pos[l]].bno], l)
    ensures l == |levels| - 1 ==> pos[l] == 0 && levels[l][0].bno == 0 && path[l + 1].index == ROOT_ADDR
    ensures l < |levels| - 1 ==>
      && pos[l + 1] < |levels[l + 1]| && path[l + 1].bno == levels[l + 1][pos[l + 1]].bno
      && path[l + 1].bno < |bs| && bs[path[l + 1].bno].level == l + 1 && Body(bs[path[l + 1].bno], l + 1)
      && 1 <= |bs[path[l + 1].bno].keys| <= NODE_CAP
      && path[l + 1].index < |bs[path[l + 1].bno].kids|
      && pos[l] == Off(bs, levels[l + 1], pos[l + 1]) + path[l + 1].index
      && path[l + 1].index != ROOT_ADDR
  {
    assert LevelOk(bs, levels, l, over);
    assert NodeOk(bs, levels[l][pos[l]].bno, l, l == |levels| - 1, over);
    if l + 1 < |levels| {
      assert StepAt(bs, levels, path, pos, l + 1);
      assert LevelOk(bs, levels, l + 1, over);
      assert NodeOk(bs, levels[l + 1][pos[l + 1]].bno, l + 1, l + 1 == |levels| - 1, over);
    }
  }

  lemma PathKeeps(bs: seq<Node>, levels: seq<seq<Entry>>, path: seq<PathNode>, path': seq<PathNode>,
                  pos: seq<nat>, l: nat)
    requires PathFrom(bs, levels, path, pos, l) && |path'| == |path|
    requires forall m :: l < m < |path| ==> path'[m] == path[m]
    ensures PathFrom(bs, levels, path', pos, l)
  {
    forall m | l < m < |levels| ensures StepAt(bs, levels, path', pos, m) {
      assert StepAt(bs, levels, path, pos, m);
    }
  }

  /** One more step of the descent. */
  lemma PathExtends(bs: seq<Node>, levels: seq<seq<Entry>>, path: seq<PathNode>, path': seq<PathNode>,
                    pos: seq<nat>, l: nat, c: nat)
    requires PathFrom(bs, levels, path, pos, l) && 0 < l && |path'| == |path|
    requires c < |At(bs, levels[l][pos[l]].bno).kids|
    requires path'[l] == PathNode(levels[l][pos[l]].bno, c)
    requires forall m :: l < m < |path| ==> path'[m] == path[m]
    requires Off(bs, levels[l], pos[l]) + c < |levels[l - 1]|
    ensures PathFrom(bs, levels, path', pos[l - 1 := Off(bs, levels[l], pos[l]) + c], l - 1)
  {
    hide Expand;
    var pos' := pos[l - 1 := Off(bs, levels[l], pos[l]) + c];
    forall m | l - 1 < m < |levels| ensures StepAt(bs, levels, path', pos', m) {
      assert m > l ==> StepAt(bs, levels, path, pos, m);
    }
  }

  /** Keys of any block on the way increase, and the followed child covers the key. */
  lemma DescentStep(bs: seq<Node>, levels: seq<seq<Entry>>, l: nat, q: nat, key: nat)
    requires Tree(bs, levels, NO_BLOCK) && l < |levels| && q < |levels[l]|
    requires Lb(levels[l], q) <= key < levels[l][q].ub
    ensures var b := levels[l][q].bno;
      && b < |bs| && bs[b].level == l && Body(bs[b], l) && Increasing(bs[b].keys)
      && (l > 0 ==> forall c: nat :: Follows(bs[b].keys, c, key) ==>
           var i := Off(bs, levels[l], q) + c;
           c < |bs[b].kids| && i < |levels[l - 1]| && levels[l - 1][i].bno == bs[b].kids[c] &&
           Lb(levels[l - 1], i) <= key < levels[l - 1][i].ub)
  {
    TreeLevels(bs, levels, NO_BLOCK, l);
    var lev := levels[l];
    var b := lev[q].bno;
    assert NodeOk(bs, lev[q].bno, l, l == |levels| - 1, NO_BLOCK);
    if l == 0 {
      assert LeafOk(bs, lev, q);
    } else {
      NodeKeysIncrease(bs, lev, q);
      forall c: nat | Follows(bs[b].keys, c, key)
        ensures var i := Off(bs, lev, q) + c;
           c < |bs[b].kids| && i < |levels[l - 1]| && levels[l - 1][i].bno == bs[b].kids[c] &&
           Lb(levels[l - 1], i) <= key < levels[l - 1][i].ub
      {
        ChildCovers(bs, lev, l, l == |levels| - 1, NO_BLOCK, q, c, key);
      }
    }
  }
}
