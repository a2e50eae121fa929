/** POST and GET with a copying log in persistent memory and a B+ tree index. */
module PostStore {
  import opened PackedEntry
  import opened BTreeShape
  import opened BTreeRecords
  import opened BTreeIndex

  type Byte = b: int | 0 <= b < 256

  const BUF_SIZE: nat := 2048
  const MAX_BODY: nat := 65535
  const MAX_ALIGNED: nat := 65536
  const MAX_LOG: nat := TWO32   // a larger block index times 2048 leaves 32 bits

  /** get_aligned for the buffer size. */
  function Aligned(len: nat): nat {
    var d := len % BUF_SIZE;
    if d != 0 then len + BUF_SIZE - d else len
  }

  function LittleEndian(b: seq<Byte>): (n: nat)
    requires |b| <= 8
    ensures n < Pow256(|b|)
  {
    if b == [] then 0 else (b[0] as int) + 256 * LittleEndian(b[1..])
  }

  function Pow256(n: nat): nat { if n == 0 then 1 else 256 * Pow256(n - 1) }

  lemma Pow256Is()
    ensures Pow256(8) == INF
  {
    assert Pow256(4) == 0x1_0000_0000;
    assert Pow256(8) == 256 * Pow256(7) == 0x1_0000 * Pow256(6) == 0x1_0000_0000 * Pow256(4);
  }

  /** The key is the first eight bytes of the body, little-endian. */
  function KeyOf(body: seq<Byte>): (k: Key)
    requires |body| >= 8
  {
    Pow256Is();
    LittleEndian(body[..8])
  }

  /** A stored POST: where its record starts and in which pass over the log. */
  datatype Rec = Rec(body: seq<Byte>, start: nat, pass: nat)

  /** The number of the last POST with a key, or -1. */
  function Latest(h: seq<Rec>, key: nat): (i: int)
    requires BigEnough(h)
    ensures -1 <= i < |h|
    ensures i >= 0 ==> KeyOf(h[i].body) == key && forall j :: i < j < |h| ==> KeyOf(h[j].body) != key
    ensures i < 0 ==> forall j :: 0 <= j < |h| ==> KeyOf(h[j].body) != key
  {
    if h == [] then -1
    else if KeyOf(h[|h| - 1].body) == key then |h| - 1
    else Latest(h[..|h| - 1], key)
  }

  /** The log, the position in it, the passes made over it, and the POSTs so far. */
  datatype View = View(log: seq<Byte>, cur: nat, pass: nat, done: seq<Rec>)

  ghost predicate Apart(a: Rec, b: Rec) {
    a.start + |a.body| <= b.start || b.start + |b.body| <= a.start
  }

  /** No later record was written over any byte of record `i`. */
  ghost predicate Intact(h: seq<Rec>, i: nat)
    requires i < |h|
  {
    forall j :: i < j < |h| ==> Apart(h[i], h[j])
  }

  /** The byte the last record over a position left there. */
  function ByteAt(h: seq<Rec>, p: nat): (b: Byte) {
    if h == [] then 0
    else
      var r := h[|h| - 1];
      if r.start <= p < r.start + |r.body| then r.body[p - r.start] else ByteAt(h[..|h| - 1], p)
  }

  /** A record lies aligned inside the log. */
  ghost predicate Placed(v: View, r: Rec) {
    && 8 <= |r.body| <= MAX_BODY
    && r.start % BUF_SIZE == 0 && r.start + Aligned(|r.body|) <= |v.log|
    && r.pass <= v.pass
    && (r.pass == v.pass ==> r.start + Aligned(|r.body|) <= v.cur)
  }

  /** Records of one pass follow each other without overlap. */
  ghost predicate InOrder(a: Rec, b: Rec) {
    a.pass < b.pass || (a.pass == b.pass && a.start + Aligned(|a.body|) <= b.start)
  }

  /** Record `j + 1` follows record `j` without a gap if it fits there; only a record that
      does not fit starts over. */
  ghost predicate Follows(h: seq<Rec>, j: nat, size: nat)
    requires j + 1 < |h|
  {
    var end := h[j].start + Aligned(|h[j].body|);
    if end + Aligned(|h[j + 1].body|) <= size
    then h[j + 1].pass == h[j].pass && h[j + 1].start == end
    else h[j + 1].pass == h[j].pass + 1 && h[j + 1].start == 0
  }

  /** The history of placements, from the start of the log to the current position. */
  ghost predicate Chain(v: View) {
    && (if v.done == [] then v.cur == 0 && v.pass == 0
        else
          var l := v.done[|v.done| - 1];
          && v.done[0].start == 0 && v.done[0].pass == 0
          && v.pass == l.pass && v.cur == l.start + Aligned(|l.body|))
    && forall j :: 0 <= j < |v.done| - 1 ==> Follows(v.done, j, |v.log|)
  }

  ghost predicate Layout(v: View) {
    && Chain(v)
    && |v.log| <= MAX_LOG && v.cur % BUF_SIZE == 0 && v.cur <= |v.log|
    && (forall i :: 0 <= i < |v.done| ==> Placed(v, v.done[i]))
    && (forall i, j :: 0 <= i < j < |v.done| ==> InOrder(v.done[i], v.done[j]))
    && (forall p :: 0 <= p < |v.log| ==> v.log[p] == ByteAt(v.done, p))
  }

  ghost predicate BigEnough(h: seq<Rec>) { forall i :: 0 <= i < |h| ==> 8 <= |h[i].body| <= MAX_BODY }

  ghost predicate Names(h: seq<Rec>, i: nat, value: nat)
    requires i < |h|
  {
    h[i].start / BUF_SIZE < TWO32 && |h[i].body| < TWO16 && value == Pack(h[i].start / BUF_SIZE, 0, |h[i].body|)
  }

  /** The index knows exactly the keys posted, each with its last record. */
  ghost predicate Indexed(contents: map<nat, nat>, h: seq<Rec>, key: nat)
    requires BigEnough(h)
  {
    var i := Latest(h, key);
    if i < 0 then key !in contents else key in contents && Names(h, i, contents[key])
  }

  ghost predicate Index(contents: map<nat, nat>, h: seq<Rec>) {
    BigEnough(h) && forall key: nat :: Indexed(contents, h, key)
  }

  /** Where the next record goes, and in which pass. */
  function Target(v: View, len: nat): nat {
    if v.cur + Aligned(len) > |v.log| then 0 else v.cur
  }

  function TargetPass(v: View, len: nat): nat {
    if v.cur + Aligned(len) > |v.log| then v.pass + 1 else v.pass
  }

  function AfterPost(v: View, body: seq<Byte>): View
    requires Target(v, |body|) + |body| <= |v.log|
  {
    var at := Target(v, |body|);
    View(v.log[..at] + body + v.log[at + |body|..], at + Aligned(|body|), TargetPass(v, |body|),
         v.done + [Rec(body, at, TargetPass(v, |body|))])
  }

  /** An intact record reads back as its body. */
  lemma {:induction false} IntactBytes(h: seq<Rec>, i: nat, p: nat)
    requires i < |h| && Intact(h, i) && h[i].start <= p < h[i].start + |h[i].body|
    ensures ByteAt(h, p) == h[i].body[p - h[i].start]
  {
    var n := |h| - 1;
    if i < n {
      assert Apart(h[i], h[n]);
      forall j | i < j < n ensures Apart(h[..n][i], h[..n][j]) { assert Apart(h[i], h[j]); }
      IntactBytes(h[..n], i, p);
    }
  }

  /** Records of the current pass, and those of the previous one that it has not reached,
      are intact. */
  lemma SurvivesOnePass(v: View, i: nat)
    requires Layout(v) && i < |v.done|
    requires v.done[i].pass == v.pass || (v.done[i].pass + 1 == v.pass && v.done[i].start >= v.cur)
    ensures Intact(v.done, i)
  {
    hide ByteAt;
    forall j | i < j < |v.done| ensures Apart(v.done[i], v.done[j]) {
      assert InOrder(v.done[i], v.done[j]) && Placed(v, v.done[i]) && Placed(v, v.done[j]);
    }
  }

  /** So are older ones that no later pass touched: here the second record, two passes on. */
  lemma OldRecordSurvives(a: Rec, b: Rec, c: Rec, d: Rec)
    requires |a.body| == 6000 && |b.body| == 100 && |c.body| == 4000 && |d.body| == 6000
    requires a.start == 0 && b.start == 6144 && c.start == 0 && d.start == 0
    ensures Intact([a, b, c, d], 1) && !Intact([a, b, c, d], 2)
  {
    var h := [a, b, c, d];
    assert !Apart(h[2], h[3]);
  }

  /** Aligned bytes of the records from `i` up to `j`. */
  function Taken(h: seq<Rec>, i: nat, j: nat): (n: nat)
    requires i <= j <= |h|
  {
    if i == j then 0 else Taken(h, i, j - 1) + Aligned(|h[j - 1].body|)
  }

  lemma {:induction false} TakenGrows(h: seq<Rec>, i: nat, j: nat, k: nat)
    requires i <= j <= k <= |h|
    ensures Taken(h, i, j) <= Taken(h, i, k)
  {
    if j < k { TakenGrows(h, i, j, k - 1); }
  }

  /** How far the log has come since record `i`: still in its pass, or less than one round. */
  ghost predicate Since(v: View, i: nat, j: nat)
    requires i <= j < |v.done|
  {
    var a, b := v.done[i], v.done[j];
    || (b.pass == a.pass && b.start == a.start + Taken(v.done, i, j))
    || (b.pass == a.pass + 1 && b.start + |v.log| < a.start + Taken(v.done, i, j) + MAX_ALIGNED)
  }

  lemma {:induction false} SinceHolds(v: View, i: nat, j: nat)
    requires Layout(v) && i <= j < |v.done| && Taken(v.done, i, j + 1) + MAX_ALIGNED <= |v.log|
    ensures Since(v, i, j)
    decreases j
  {
    hide Layout, Aligned;
    if i < j {
      TakenGrows(v.done, i, j, j + 1);
      SinceHolds(v, i, j - 1);
      RecordPlaced(v, i);
      FollowsAt(v, j - 1);
      RecordPlaced(v, j);
      AlignedBound(|v.done[j].body|);
      SinceStep(|v.log|, v.done[i].start, Taken(v.done, i, j - 1), v.done[j - 1].start, v.done[j - 1].pass - v.done[i].pass,
                Aligned(|v.done[j - 1].body|), Aligned(|v.done[j].body|), v.done[j].start, v.done[j].pass - v.done[i].pass);
    }
  }

  lemma FollowsAt(v: View, j: nat)
    requires Layout(v) && j + 1 < |v.done|
    ensures Follows(v.done, j, |v.log|)
  {
  }

  lemma AlignedBound(n: nat)
    requires n <= MAX_BODY
    ensures n <= Aligned(n) <= MAX_ALIGNED
  {
  }

  /** The numbers of one step: `a` is where record `i` starts, `x` and `y` are two successive
      starts with their passes counted from there, and `t` the bytes taken up to `x`. */
  lemma SinceStep(size: nat, a: nat, t: nat, x: nat, px: int, ax: nat, ay: nat, y: nat, py: int)
    requires a <= size && ay <= MAX_ALIGNED && t + ax + ay + MAX_ALIGNED <= size
    requires (px == 0 && x == a + t) || (px == 1 && x + size < a + t + MAX_ALIGNED)
    requires if x + ax + ay <= size then py == px && y == x + ax else py == px + 1 && y == 0
    ensures (py == 0 && y == a + (t + ax)) || (py == 1 && y + size < a + (t + ax) + MAX_ALIGNED)
  {
  }

  /** Over any run: a record stays intact until the records from it on, with one largest
      record to spare, fill the log. */
  lemma Retained(v: View, i: nat)
    requires Layout(v) && i < |v.done| && Taken(v.done, i, |v.done|) + MAX_ALIGNED <= |v.log|
    ensures Intact(v.done, i)
  {
    hide ByteAt, Layout;
    forall j | i < j < |v.done| ensures Apart(v.done[i], v.done[j]) {
      TakenGrows(v.done, i, j + 1, |v.done|);
      SinceHolds(v, i, j);
      RecordPlaced(v, i);
      RecordPlaced(v, j);
      TakenFirst(v.done, i, j);
    }
  }

  lemma {:induction false} TakenFirst(h: seq<Rec>, i: nat, j: nat)
    requires i < j <= |h|
    ensures Taken(h, i, j) >= Aligned(|h[i].body|) >= |h[i].body|
  {
    if i + 1 < j { TakenFirst(h, i, j - 1); }
  }

  lemma RecordPlaced(v: View, i: nat)
    requires Layout(v) && i < |v.done|
    ensures Placed(v, v.done[i])
  {
  }

  /** A POST that fits behind the last record touches no record of its pass. */
  lemma FittingIsApart(v: View, body: seq<Byte>, i: nat)
    requires Layout(v) && i < |v.done| && v.cur + Aligned(|body|) <= |v.log|
    requires v.done[i].pass == v.pass
    ensures Apart(v.done[i], Rec(body, v.cur, v.pass))
  {
    RecordPlaced(v, i);
  }

  lemma PlacedAfterPost(v: View, body: seq<Byte>, r: Rec)
    requires Layout(v) && 8 <= |body| <= MAX_BODY && Aligned(|body|) <= |v.log|
    requires Placed(v, r)
    ensures Placed(AfterPost(v, body), r)
    ensures InOrder(r, Rec(body, Target(v, |body|), TargetPass(v, |body|)))
  {
    hide ByteAt;
  }

  /** A POST keeps the layout: every byte of the log is that of the last record over it. */
  lemma PostKeepsLayout(v: View, body: seq<Byte>)
    requires Layout(v) && 8 <= |body| <= MAX_BODY && Aligned(|body|) <= |v.log|
    ensures Layout(AfterPost(v, body))
  {
    hide Placed, InOrder;
    var v' := AfterPost(v, body);
    NewPlaced(v, body);
    forall i | 0 <= i < |v'.done| ensures Placed(v', v'.done[i]) {
      if i < |v.done| {
        assert v'.done[i] == v.done[i];
        PlacedAfterPost(v, body, v.done[i]);
      }
    }
    forall i, j | 0 <= i < j < |v'.done| ensures InOrder(v'.done[i], v'.done[j]) {
      if j < |v.done| {
        assert InOrder(v.done[i], v.done[j]);
      } else {
        PlacedAfterPost(v, body, v.done[i]);
      }
    }
    forall p | 0 <= p < |v'.log| ensures v'.log[p] == ByteAt(v'.done, p) {
      assert v'.done[..|v.done|] == v.done;
    }
    ChainAfterPost(v, body);
  }

  lemma ChainAfterPost(v: View, body: seq<Byte>)
    requires Chain(v) && Aligned(|body|) <= |v.log| && v.cur <= |v.log|
    ensures Chain(AfterPost(v, body))
  {
    var v' := AfterPost(v, body);
    forall j | 0 <= j < |v'.done| - 1 ensures Follows(v'.done, j, |v'.log|) {
      if j < |v.done| - 1 { assert Follows(v.done, j, |v.log|); }
    }
  }

  lemma NewPlaced(v: View, body: seq<Byte>)
    requires Layout(v) && 8 <= |body| <= MAX_BODY && Aligned(|body|) <= |v.log|
    ensures Placed(AfterPost(v, body), Rec(body, Target(v, |body|), TargetPass(v, |body|)))
    ensures |AfterPost(v, body).log| == |v.log|
    ensures AfterPost(v, body).cur % BUF_SIZE == 0 && AfterPost(v, body).cur <= |v.log|
  {
    hide ByteAt;
  }

  /** A POST keeps the index. */
  lemma PostKeepsIndex(contents: map<nat, nat>, h: seq<Rec>, r: Rec)
    requires Index(contents, h) && 8 <= |r.body| <= MAX_BODY && r.start / BUF_SIZE < TWO32
    ensures Index(contents[KeyOf(r.body) := Pack(r.start / BUF_SIZE, 0, |r.body|)], h + [r])
  {
    var h', k := h + [r], KeyOf(r.body);
    var contents' := contents[k := Pack(r.start / BUF_SIZE, 0, |r.body|)];
    assert h'[..|h'| - 1] == h && h'[|h'| - 1] == r;
    assert BigEnough(h');
    forall key: nat ensures Indexed(contents', h', key) {
      assert Indexed(contents, h, key);
      if key == k {
        assert Latest(h', key) == |h|;
      } else {
        assert Latest(h', key) == Latest(h, key);
      }
    }
  }

  class Store {
    const tree: BTree
    var log: seq<Byte>
    var cur: nat
    ghost var done: seq<Rec>
    ghost var pass: nat

    constructor (t: BTree, size: nat)
      requires t.Valid() && t.Contents() == map[] && size <= MAX_LOG
      ensures tree == t && Valid() && done == [] && |log| == size
    {
      tree, log, cur, done, pass := t, seq(size, _ => 0), 0, [], 0;
    }

    ghost function Now(): View
      reads this
    {
      View(log, cur, pass, done)
    }

    ghost predicate Valid()
      reads this, tree
    {
      tree.Valid() && Layout(Now()) && Index(tree.Contents(), done)
    }

    /** copy_and_log: copies the body to the log, starting over when no room is left, and
        indexes it. */
    method Post(body: seq<Byte>)
      requires Valid() && 8 <= |body| <= MAX_BODY && Aligned(|body|) <= |log|
      requires tree.HasRoom()
      modifies this, tree
      ensures Valid() && |log| == |old(log)|
      ensures Now() == old(AfterPost(Now(), body))
      ensures var r := Rec(body, old(cur), old(pass));
        old(cur) + Aligned(|body|) <= |log| ==>
        && done == old(done) + [r] && cur == old(cur) + Aligned(|body|) && pass == old(pass)
        && forall i :: 0 <= i < |old(done)| && old(done)[i].pass == old(pass) ==> Apart(old(done)[i], r)
      ensures old(cur) + Aligned(|body|) > |log| ==>
        done == old(done) + [Rec(body, 0, old(pass) + 1)] && cur == Aligned(|body|) && pass == old(pass) + 1
      ensures |done| == |old(done)| + 1 && done[..|old(done)|] == old(done) && done[|old(done)|].body == body
      ensures |tree.Contents()| <= old(|tree.Contents()|) + 1
    {
      hide Layout, Index, Tree, Pairs, Expand, Total, MapOf, Pack, KeyOf;
      ghost var v := Now();
      PostKeepsLayout(v, body);
      LayoutFacts(v);
      var len := |body|;
      var aligned := Aligned(len);
      if cur + aligned > |log| {
        cur := 0;
        pass := pass + 1;
      }
      log := log[..cur] + body + log[cur + len..];
      PostKeepsIndex(tree.Contents(), done, Rec(body, cur, pass));
      PackUnpack(cur / BUF_SIZE, 0, len);
      tree.Insert(KeyOf(body), Pack(cur / BUF_SIZE, 0, len));
      done := done + [Rec(body, cur, pass)];
      cur := cur + aligned;
      assert Now() == AfterPost(v, body);
      if v.cur + aligned <= |v.log| {
        forall i | 0 <= i < |v.done| && v.done[i].pass == v.pass ensures Apart(v.done[i], Rec(body, v.cur, v.pass)) {
          FittingIsApart(v, body, i);
        }
      }
    }

    /** GET: the record the index names, or nothing. */
    method Get(key: Key) returns (found: bool, content: seq<Byte>)
      requires Valid()
      modifies tree
      ensures Valid() && BigEnough(done)
      ensures found <==> Latest(done, key) >= 0
      ensures found ==> var r := done[Latest(done, key)];
        && |content| == |r.body|
        && (forall k :: 0 <= k < |content| ==> content[k] == ByteAt(done, r.start + k))
        && (Intact(done, Latest(done, key)) ==> content == r.body)
    {
      hide Layout, Tree, Pairs, Expand, Total, MapOf, ByteAt, Intact;
      var packed;
      found, packed := tree.Lookup(key);
      content := [];
      assert Indexed(tree.Contents(), done, key);
      if found {
        ghost var i := Latest(done, key);
        RecordFacts(Now(), i);
        PackUnpack(done[i].start / BUF_SIZE, 0, |done[i].body|);
        var idx, len := Idx(packed), Len(packed);
        content := log[BUF_SIZE * idx..BUF_SIZE * idx + len];
      }
    }
  }

  // ---- runs of POSTs that fit the log

  /** Aligned bytes of some bodies. */
  function Needed(bodies: seq<seq<Byte>>): (n: nat) {
    if bodies == [] then 0 else Needed(bodies[..|bodies| - 1]) + Aligned(|bodies[|bodies| - 1]|)
  }

  lemma {:induction false} NeededGrows(bodies: seq<seq<Byte>>, i: nat)
    requires i <= |bodies|
    ensures Needed(bodies[..i]) <= Needed(bodies)
    ensures i < |bodies| ==> Needed(bodies[..i]) + Aligned(|bodies[i]|) <= Needed(bodies)
    decreases |bodies|
  {
    if i == |bodies| {
      assert bodies[..i] == bodies;
    } else {
      var n := |bodies| - 1;
      assert bodies[..n][..i] == bodies[..i];
      NeededGrows(bodies[..n], i);
    }
  }

  /** POSTs that together fit the log: none starts over, and all stay intact. */
  method PostAll(s: Store, bodies: seq<seq<Byte>>)
    requires s.Valid() && s.done == [] && s.tree.Contents() == map[]
    requires forall i :: 0 <= i < |bodies| ==> 8 <= |bodies[i]| <= MAX_BODY
    requires Needed(bodies) <= |s.log| && |bodies| <= MAX_RECORDS
    modifies s, s.tree
    ensures s.Valid() && |s.done| == |bodies|
    ensures forall i :: 0 <= i < |bodies| ==> s.done[i].body == bodies[i] && Intact(s.done, i)
  {
    hide Layout, Index, Tree, Pairs, Expand, Total, MapOf, Intact;
    StartOfLog(s.Now());
    assert bodies[..0] == [];
    for n := 0 to |bodies|
      invariant s.Valid() && |s.done| == n && |s.log| == old(|s.log|)
      invariant s.cur == Needed(bodies[..n]) && s.pass == 0 && |s.tree.Contents()| <= n
      invariant forall i :: 0 <= i < n ==> s.done[i].body == bodies[i]
    {
      NeededGrows(bodies, n);
      assert bodies[..n + 1][..n] == bodies[..n];
      s.tree.FewRecords();
      s.Post(bodies[n]);
    }
    forall i | 0 <= i < |bodies| ensures Intact(s.done, i) {
      FirstPass(s.Now(), i);
      SurvivesOnePass(s.Now(), i);
    }
  }

  lemma StartOfLog(v: View)
    requires Layout(v) && v.done == []
    ensures v.cur == 0 && v.pass == 0
  {
  }

  lemma FirstPass(v: View, i: nat)
    requires Layout(v) && v.pass == 0 && i < |v.done|
    ensures v.done[i].pass == 0
  {
    RecordPlaced(v, i);
  }

  ghost predicate LastWith(bodies: seq<seq<Byte>>, key: nat, i: nat)
    requires forall j :: 0 <= j < |bodies| ==> |bodies[j]| >= 8
  {
    i < |bodies| && KeyOf(bodies[i]) == key && forall j :: i < j < |bodies| ==> KeyOf(bodies[j]) != key
  }

  /** After such a run, GET yields for every key the body of its last POST. */
  method PostThenGet(s: Store, bodies: seq<seq<Byte>>, key: Key) returns (found: bool, content: seq<Byte>)
    requires s.Valid() && s.done == [] && s.tree.Contents() == map[]
    requires forall i :: 0 <= i < |bodies| ==> 8 <= |bodies[i]| <= MAX_BODY
    requires Needed(bodies) <= |s.log| && |bodies| <= MAX_RECORDS
    modifies s, s.tree
    ensures found <==> exists i :: 0 <= i < |bodies| && KeyOf(bodies[i]) == key
    ensures found ==> exists i: nat :: LastWith(bodies, key, i) && content == bodies[i]
  {
    hide Layout, Index, Tree, Pairs, Expand, Total, MapOf, Intact, ByteAt;
    PostAll(s, bodies);
    found, content := s.Get(key);
    ghost var i := Latest(s.done, key);
    if found {
      assert KeyOf(bodies[i]) == key && content == bodies[i];
      assert forall j :: i < j < |bodies| ==> s.done[j].body == bodies[j];
      assert LastWith(bodies, key, i);
    } else {
      assert forall j :: 0 <= j < |bodies| ==> KeyOf(s.done[j].body) != key;
    }
  }

  lemma LayoutFacts(v: View)
    requires Layout(v)
    ensures v.cur <= |v.log| <= MAX_LOG && v.cur % BUF_SIZE == 0
  {
  }

  /** What the log holds where a record was written. */
  lemma RecordFacts(v: View, i: nat)
    requires Layout(v) && i < |v.done|
    ensures v.done[i].start % BUF_SIZE == 0 && v.done[i].start + |v.done[i].body| <= |v.log|
    ensures forall p :: v.done[i].start <= p < v.done[i].start + |v.done[i].body| ==> v.log[p] == ByteAt(v.done, p)
    ensures Intact(v.done, i) ==>
      v.log[v.done[i].start..v.done[i].start + |v.done[i].body|] == v.done[i].body
  {
    hide ByteAt, Intact;
    assert Placed(v, v.done[i]);
    if Intact(v.done, i) {
      var r := v.done[i];
      forall k | 0 <= k < |r.body| ensures v.log[r.start + k] == r.body[k] {
        IntactBytes(v.done, i, r.start + k);
      }
    }
  }
}
