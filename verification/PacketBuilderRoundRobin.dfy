/** Report blocks over whole runs: with a steady source table the sources are reported in endless
    rotation, and no packet reports a source twice; with any table, exactly when it does. */
module PacketBuilderRoundRobin {
  import opened Wire
  import opened SdesFormat
  import opened ReportFormat
  import opened BuilderModel
  import opened PacketBuilderModel
  import opened PacketBuilderSizes
  import opened PacketBuilderRuns
  import opened PacketBuilderCycles

  // ----- one pass over a table -----

  /** The report blocks of the reportable sources from number `i` on, whether marked or not. */
  function Reportables(table: seq<Source>, i: nat, first: bool, prev: real): (r: seq<ReportBlock>)
    ensures |r| <= if i < |table| then |table| - i else 0
    decreases if i < |table| then |table| - i else 0
  {
    if i >= |table| then []
    else if Reportable(table[i], first, prev) then [table[i].block] + Reportables(table, i + 1, first, prev)
    else Reportables(table, i + 1, first, prev)
  }

  /** Of the reportable sources from number `i` on, exactly the first `k` are marked. */
  predicate Marked(table: seq<Source>, i: nat, first: bool, prev: real, k: nat)
    decreases if i < |table| then |table| - i else 0
  {
    if i >= |table| then k == 0
    else if !Reportable(table[i], first, prev) then Marked(table, i + 1, first, prev, k)
    else if k == 0 then !table[i].processed && Marked(table, i + 1, first, prev, 0)
    else table[i].processed && Marked(table, i + 1, first, prev, k - 1)
  }

  lemma {:induction false} MarkedWithin(table: seq<Source>, i: nat, first: bool, prev: real, k: nat)
    requires Marked(table, i, first, prev, k)
    ensures k <= |Reportables(table, i, first, prev)|
    ensures NoneLeft(table, i, first, prev) <==> k == |Reportables(table, i, first, prev)|
    decreases if i < |table| then |table| - i else 0
  {
    if i < |table| {
      MarkedWithin(table, i + 1, first, prev, if Reportable(table[i], first, prev) && k > 0 then k - 1 else k);
    }
  }

  /** The tables agree from number `i` on but for marks. */
  predicate SameFrom(a: seq<Source>, b: seq<Source>, i: nat) {
    |a| == |b| && forall j :: i <= j < |a| ==> a[j].(processed := false) == b[j].(processed := false)
  }

  lemma {:induction false} ReportablesSame(a: seq<Source>, b: seq<Source>, i: nat, first: bool, prev: real)
    requires SameFrom(a, b, i)
    ensures Reportables(a, i, first, prev) == Reportables(b, i, first, prev)
    decreases if i < |a| then |a| - i else 0
  {
    if i < |a| {
      assert a[i].(processed := false) == b[i].(processed := false);
      ReportablesSame(a, b, i + 1, first, prev);
    }
  }

  lemma {:induction false} MarkedSame(a: seq<Source>, b: seq<Source>, i: nat, first: bool, prev: real, k: nat)
    requires |a| == |b| && (forall j :: i <= j < |a| ==> a[j] == b[j]) && Marked(a, i, first, prev, k)
    ensures Marked(b, i, first, prev, k)
    decreases if i < |a| then |a| - i else 0
  {
    if i < |a| {
      MarkedSame(a, b, i + 1, first, prev, if Reportable(a[i], first, prev) && k > 0 then k - 1 else k);
    }
  }

  lemma {:induction false} MarkedNone(table: seq<Source>, i: nat, first: bool, prev: real)
    requires forall j :: i <= j < |table| ==> !table[j].processed
    ensures Marked(table, i, first, prev, 0)
    decreases if i < |table| then |table| - i else 0
  {
    if i < |table| {
      MarkedNone(table, i + 1, first, prev);
    }
  }

  /** A pass over a table whose first `k` reportable sources are marked adds the blocks of the next
      ones, in order, and marks them; it stops early only when a block does not fit or `max` are
      added. */
  ghost predicate Passed(b: Build, table: seq<Source>, i: nat, first: bool, prev: real, max: int, added: nat,
      skipped: nat, k: nat, r: Filled) {
    var all, m := Reportables(table, i, first, prev), r.added - added;
    && r.status == Ok && r.skipped == skipped + k && 0 <= m && k + m <= |all|
    && r.build == b.(blocks := b.blocks + all[k..k + m])
    && SameFrom(r.table, table, 0) && (forall j :: 0 <= j < i && j < |table| ==> r.table[j] == table[j])
    && Marked(r.table, i, first, prev, k + m)
    && (r.full ==> k + m < |all|) && (!r.full ==> k + m == |all| || added + m == max)
    && (m == 0 || added + m <= max)
    && (AtEndOfList(r, first, prev) <==> k + m == |all|)
  }

  lemma PassedSkip(b: Build, table: seq<Source>, i: nat, first: bool, prev: real, max: int, added: nat, skipped: nat,
      k: nat, r: Filled)
    requires i < |table| && !Reportable(table[i], first, prev)
    requires Passed(b, table, i + 1, first, prev, max, added, skipped, k, r)
    ensures Passed(b, table, i, first, prev, max, added, skipped, k, r)
  {
  }

  lemma PassedMarked(b: Build, table: seq<Source>, i: nat, first: bool, prev: real, max: int, added: nat,
      skipped: nat, k: nat, r: Filled)
    requires i < |table| && Reportable(table[i], first, prev) && table[i].processed && k > 0
    requires Passed(b, table, i + 1, first, prev, max, added, skipped + 1, k - 1, r)
    ensures Passed(b, table, i, first, prev, max, added, skipped, k, r)
  {
    var rest, m := Reportables(table, i + 1, first, prev), r.added - added;
    assert ([table[i].block] + rest)[k..k + m] == rest[k - 1..k - 1 + m];
  }

  lemma PassedOne(b: Build, table: seq<Source>, i: nat, first: bool, prev: real, max: int, added: nat, skipped: nat,
      r: Filled)
    requires i < |table| && Reportable(table[i], first, prev) && !table[i].processed
    requires
      var b' := b.(blocks := b.blocks + [table[i].block]);
      Passed(b', table[i := table[i].(processed := true)], i + 1, first, prev, max, added + 1, skipped, 0, r)
    requires added + 1 < max
    ensures Passed(b, table, i, first, prev, max, added, skipped, 0, r)
  {
    var table' := table[i := table[i].(processed := true)];
    ReportablesSame(table, table', i + 1, first, prev);
    var rest, m := Reportables(table, i + 1, first, prev), r.added - added - 1;
    assert [table[i].block] + rest[0..m] == ([table[i].block] + rest)[0..m + 1];
    assert b.blocks + [table[i].block] + rest[0..m] == b.blocks + ([table[i].block] + rest[0..m]);
  }

  lemma {:induction false} NextPasses(b: Build, table: seq<Source>, i: nat, first: bool, prev: real, max: int,
      added: nat, skipped: nat, k: nat)
    requires i < |table| && added < max && b.building && !b.sender.NoReport?
    requires Marked(table, i + 1, first, prev, k)
    ensures Passed(b, table, i + 1, first, prev, max, added, skipped, k,
                   FillNext(b, table, i, first, prev, max, added, skipped))
    decreases |table| - i, 0
  {
    if i + 1 < |table| {
      FillPasses(b, table, i + 1, first, prev, max, added, skipped, k);
    } else {
      assert b.blocks + [] == b.blocks;
    }
  }

  lemma {:induction false} FillPasses(b: Build, table: seq<Source>, i: nat, first: bool, prev: real, max: int,
      added: nat, skipped: nat, k: nat)
    requires i < |table| && added < max && b.building && !b.sender.NoReport?
    requires Marked(table, i, first, prev, k)
    ensures Passed(b, table, i, first, prev, max, added, skipped, k,
                   FillFrom(b, table, i, first, prev, max, added, skipped))
    decreases |table| - i, 2
  {
    var s, r := table[i], FillFrom(b, table, i, first, prev, max, added, skipped);
    if !Reportable(s, first, prev) {
      NextPasses(b, table, i, first, prev, max, added, skipped, k);
      PassedSkip(b, table, i, first, prev, max, added, skipped, k, r);
    } else if s.processed {
      NextPasses(b, table, i, first, prev, max, added, skipped + 1, k - 1);
      PassedMarked(b, table, i, first, prev, max, added, skipped, k, r);
    } else {
      FillPassesOne(b, table, i, first, prev, max, added, skipped);
    }
  }

  lemma FillPassesOne(b: Build, table: seq<Source>, i: nat, first: bool, prev: real, max: int, added: nat, skipped: nat)
    requires i < |table| && added < max && b.building && !b.sender.NoReport?
    requires Marked(table, i, first, prev, 0) && Reportable(table[i], first, prev)
    ensures Passed(b, table, i, first, prev, max, added, skipped, 0,
                   FillFrom(b, table, i, first, prev, max, added, skipped))
    decreases |table| - i, 1
  {
    var s, r := table[i], FillFrom(b, table, i, first, prev, max, added, skipped);
    var (b', status) := DoAddBlock(b, s.block);
    var table' := table[i := s.(processed := true)];
    MarkedSame(table, table', i + 1, first, prev, 0);
    if status == NotEnoughBytesLeft {
      PassedFull(b, table, i, first, prev, max, added, skipped);
    } else if added + 1 >= max {
      PassedMax(b, table, i, first, prev, max, added, skipped);
    } else {
      NextPasses(b', table', i, first, prev, max, added + 1, skipped, 0);
      PassedOne(b, table, i, first, prev, max, added, skipped, r);
    }
  }

  lemma PassedFull(b: Build, table: seq<Source>, i: nat, first: bool, prev: real, max: int, added: nat, skipped: nat)
    requires i < |table| && Marked(table, i, first, prev, 0) && Reportable(table[i], first, prev)
    ensures Passed(b, table, i, first, prev, max, added, skipped, 0,
                   Filled(b, table, added, skipped, true, Some(i), Ok))
  {
  }

  lemma PassedMax(b: Build, table: seq<Source>, i: nat, first: bool, prev: real, max: int, added: nat, skipped: nat)
    requires i < |table| && Marked(table, i, first, prev, 0) && Reportable(table[i], first, prev) && added + 1 == max
    ensures
      var b', table' := b.(blocks := b.blocks + [table[i].block]), table[i := table[i].(processed := true)];
      var at := if i + 1 < |table| then Some(i + 1) else None;
      Passed(b, table, i, first, prev, max, added, skipped, 0, Filled(b', table', added + 1, skipped, false, at, Ok))
  {
    var table' := table[i := table[i].(processed := true)];
    MarkedSame(table, table', i + 1, first, prev, 0);
    ReportablesSame(table, table', i + 1, first, prev);
    MarkedWithin(table', i + 1, first, prev, 0);
    assert Reportables(table, i, first, prev)[0..1] == [table[i].block];
  }

  // ----- rotation -----

  function After(n: nat, p: nat): (q: nat)
    requires p < n
    ensures q < n
  {
    if p + 1 == n then 0 else p + 1
  }

  /** `m` elements of the endless repetition of `s`, from position `p` on. */
  function Ring<T>(s: seq<T>, p: nat, m: nat): (r: seq<T>)
    requires p < |s|
    ensures |r| == m
    decreases m
  {
    if m == 0 then [] else [s[p]] + Ring(s, After(|s|, p), m - 1)
  }

  function Ahead(n: nat, p: nat, m: nat): (q: nat)
    requires p < n
    ensures q < n
    decreases m
  {
    if m == 0 then p else Ahead(n, After(n, p), m - 1)
  }

  lemma {:induction false} RingAppend<T>(s: seq<T>, p: nat, a: nat, b: nat)
    requires p < |s|
    ensures Ring(s, p, a + b) == Ring(s, p, a) + Ring(s, Ahead(|s|, p, a), b)
    ensures Ahead(|s|, p, a + b) == Ahead(|s|, Ahead(|s|, p, a), b)
    decreases a
  {
    if a > 0 {
      RingAppend(s, After(|s|, p), a - 1, b);
    }
  }

  /** Up to the end of `s` the rotation is a slice. */
  lemma {:induction false} RingSlice<T>(s: seq<T>, p: nat, m: nat)
    requires p < |s| && p + m <= |s|
    ensures Ring(s, p, m) == s[p..p + m]
    ensures Ahead(|s|, p, m) == if p + m == |s| then 0 else p + m
    decreases m
  {
    if m == 1 {
      assert Ring(s, After(|s|, p), 0) == [];
    } else if m > 1 {
      RingSlice(s, p + 1, m - 1);
    }
  }

  /** Around the end: the rest of `s` and then its beginning. */
  lemma RingWrap<T>(s: seq<T>, p: nat, m: nat)
    requires p < |s| && m <= p
    ensures Ring(s, p, |s| - p + m) == s[p..] + s[..m]
    ensures Ahead(|s|, p, |s| - p + m) == m
  {
    RingSlice(s, p, |s| - p);
    RingAppend(s, p, |s| - p, m);
    RingSlice(s, 0, m);
    assert s[p..|s|] == s[p..] && s[0..m] == s[..m];
  }

  /** As many elements as `s` has, or fewer, are all different if those of `s` are. */
  lemma RingDistinct<T>(s: seq<T>, p: nat, m: nat)
    requires p < |s| && m <= |s| && Distinct(s)
    ensures Distinct(Ring(s, p, m))
  {
    if p + m <= |s| {
      RingSlice(s, p, m);
    } else {
      RingWrap(s, p, p + m - |s|);
    }
  }

  predicate Distinct<T(==)>(s: seq<T>) {
    forall i, j :: 0 <= i < j < |s| ==> s[i] != s[j]
  }

  predicate DistinctSources(blocks: seq<ReportBlock>) {
    forall i, j :: 0 <= i < j < |blocks| ==> blocks[i].ssrc != blocks[j].ssrc
  }

  // ----- one packet -----

  /** Where the rotation stands: the mark count, which is never that of the whole table. */
  predicate At(table: seq<Source>, first: bool, prev: real, k: nat) {
    Marked(table, 0, first, prev, k) && (k < |Reportables(table, 0, first, prev)| || k == 0)
  }

  /** The blocks `r` follow position `k` of the rotation, and the marks are moved accordingly. */
  ghost predicate Rotated(all: seq<ReportBlock>, k: nat, r: seq<ReportBlock>, table: seq<Source>, first: bool,
      prev: real, processing: bool) {
    && |r| <= |all|
    && if all == [] then At(table, first, prev, 0)
       else k < |all| && r == Ring(all, k, |r|) && At(table, first, prev, Ahead(|all|, k, |r|))
            && (processing ==> Ahead(|all|, k, |r|) == 0)
  }

  lemma ClearedAt(table: seq<Source>, first: bool, prev: real)
    ensures At(ClearFlags(table), first, prev, 0)
    ensures Reportables(ClearFlags(table), 0, first, prev) == Reportables(table, 0, first, prev)
  {
    MarkedNone(ClearFlags(table), 0, first, prev);
    ReportablesSame(ClearFlags(table), table, 0, first, prev);
  }

  /** After the last source: the sources that had been skipped, from the first on. */
  lemma RefillReports(l: Local, table: seq<Source>, b: Build, k: nat)
    requires b.building && !b.sender.NoReport? && table != [] && At(table, l.first, l.prev, 0) && !l.processing
    requires
      var all := Reportables(table, 0, l.first, l.prev);
      (k < |all| || k == 0) && b.blocks == all[k..]
    ensures
      var o := Refill(l, table, b, k);
      && SameFrom(o.table, table, 0)
      && Rotated(Reportables(table, 0, l.first, l.prev), k, o.build.blocks, o.table, l.first, l.prev, false)
      && |o.build.blocks| >= |b.blocks|
  {
    var all := Reportables(table, 0, l.first, l.prev);
    var o := Refill(l, table, b, k);
    if k > 0 {
      FillPasses(b, table, 0, l.first, l.prev, k, 0, 0, 0);
      var m := FillFrom(b, table, 0, l.first, l.prev, k, 0, 0).added;
      assert o.build.blocks == all[k..] + all[..m];
      RingWrap(all, k, m);
      ReportablesSame(o.table, table, 0, l.first, l.prev);
    } else if all != [] {
      RingSlice(all, 0, |all|);
    }
  }

  lemma RestRotated(all: seq<ReportBlock>, table: seq<Source>, first: bool, prev: real, k: nat)
    requires (k < |all| || k == 0) && At(table, first, prev, 0)
    ensures Rotated(all, k, all[k..], table, first, prev, true)
  {
    if all != [] {
      RingSlice(all, k, |all| - k);
      assert all[k..|all|] == all[k..];
    }
  }

  lemma MidRotated(all: seq<ReportBlock>, table: seq<Source>, first: bool, prev: real, k: nat, m: nat)
    requires k + m < |all| && all == Reportables(table, 0, first, prev) && Marked(table, 0, first, prev, k + m)
    ensures Rotated(all, k, all[k..k + m], table, first, prev, false)
  {
    RingSlice(all, k, m);
  }

  /** A first pass over the whole table moves the rotation on, or gets to the end of it. */
  ghost predicate PassedAll(table: seq<Source>, first: bool, prev: real, k: nat, r: Filled) {
    var all := Reportables(table, 0, first, prev);
    && r.status == Ok && r.skipped == k && SameFrom(r.table, table, 0) && (r.full <==> !AtEndOfList(r, first, prev))
    && k <= |all|
    && if r.full then Rotated(all, k, r.build.blocks, r.table, first, prev, false) else r.build.blocks == all[k..]
  }

  lemma PassRotates(b: Build, table: seq<Source>, first: bool, prev: real, k: nat)
    requires b.building && !b.sender.NoReport? && b.blocks == [] && table != [] && At(table, first, prev, k)
    ensures PassedAll(table, first, prev, k, FillFrom(b, table, 0, first, prev, |table|, 0, 0))
  {
    FillPasses(b, table, 0, first, prev, |table|, 0, 0, k);
    PassedRotates(b, table, first, prev, k, FillFrom(b, table, 0, first, prev, |table|, 0, 0));
  }

  lemma PassedRotates(b: Build, table: seq<Source>, first: bool, prev: real, k: nat, r: Filled)
    requires b.blocks == [] && At(table, first, prev, k)
    requires Passed(b, table, 0, first, prev, |table|, 0, 0, k, r)
    ensures PassedAll(table, first, prev, k, r)
  {
    var all := Reportables(table, 0, first, prev);
    assert r.build.blocks == all[k..k + r.added];
    ReportablesSame(r.table, table, 0, first, prev);
    if k + r.added < |all| {
      MidRotated(all, r.table, first, prev, k, r.added);
    } else {
      assert all[k..|all|] == all[k..];
    }
  }

  lemma NewCycleReports(l: Local, table: seq<Source>, b: Build, k: nat)
    requires l.Shaped() && !l.processing && !b.sender.NoReport? && table != [] && At(table, l.first, l.prev, 0)
    requires b == Filling(l.max, b.sender, b.blocks, [Item(1, l.cname)]) && Total(b) <= l.max
    requires
      var all := Reportables(table, 0, l.first, l.prev);
      (k < |all| || k == 0) && b.blocks == all[k..]
    ensures
      var o := NewCycle(l, table, b, k);
      && SameFrom(o.table, table, 0)
      && Rotated(Reportables(table, 0, l.first, l.prev), k, o.build.blocks, o.table, l.first, l.prev,
        o.local.processing)
      && |o.build.blocks| >= |b.blocks|
  {
    var all, items := Reportables(table, 0, l.first, l.prev), StartCycle(l.items, l.count + 1);
    StartCycleSame(l.items, l.count + 1);
    PassSends(l, b, items);
    var q := FillItems(b, items, 0, 0);
    if q.full {
      RestRotated(all, table, l.first, l.prev, k);
    } else {
      RefillReports(l.(count := l.count + 1, items := ClearProcessed(q.items)), table, q.build, k);
    }
  }

  lemma FreshReports(l: Local, table: seq<Source>, sender: Sender, k: nat)
    requires l.Shaped() && l.init && !l.processing && table != [] && !sender.NoReport?
    requires At(table, l.first, l.prev, k)
    ensures
      var o := Fresh(l, table, Base(l.max, sender, l.cname));
      && SameFrom(o.table, table, 0)
      && Rotated(Reportables(table, 0, l.first, l.prev), k, o.build.blocks, o.table, l.first, l.prev,
        o.local.processing)
      && (Reportables(table, 0, l.first, l.prev) != [] ==> o.build.blocks != [])
  {
    var b := Base(l.max, sender, l.cname);
    var r := FillFrom(b, table, 0, l.first, l.prev, |table|, 0, 0);
    PassRotates(b, table, l.first, l.prev, k);
    BaseSize(l.max, sender, l.cname);
    FillFromAdds(b, table, 0, l.first, l.prev, |table|, 0, 0);
    FirstBlockFits(l, table, sender);
    if !r.full {
      CoveredReports(l, table, r, k);
    }
  }

  /** The new cycle after a first pass that covered all sources. */
  lemma CoveredReports(l: Local, table: seq<Source>, r: Filled, k: nat)
    requires l.Shaped() && !l.processing && table != [] && At(table, l.first, l.prev, k) && !r.full
    requires PassedAll(table, l.first, l.prev, k, r) && !r.build.sender.NoReport?
    requires r.build == Filling(l.max, r.build.sender, r.build.blocks, [Item(1, l.cname)]) && Total(r.build) <= l.max
    ensures
      var o, all := NewCycle(l, ClearFlags(r.table), r.build, r.skipped), Reportables(table, 0, l.first, l.prev);
      && SameFrom(o.table, table, 0)
      && Rotated(all, k, o.build.blocks, o.table, l.first, l.prev, o.local.processing)
      && (all != [] ==> o.build.blocks != [])
  {
    ReportablesSame(r.table, table, 0, l.first, l.prev);
    ClearedAt(r.table, l.first, l.prev);
    NewCycleReports(l, ClearFlags(r.table), r.build, k);
  }

  lemma ResumeReports(l: Local, table: seq<Source>, sender: Sender)
    requires Proper(l) && l.init && l.processing && table != [] && !sender.NoReport?
    requires At(table, l.first, l.prev, 0)
    ensures
      var o := Resume(l, table, Base(l.max, sender, l.cname));
      && SameFrom(o.table, table, 0)
      && Rotated(Reportables(table, 0, l.first, l.prev), 0, o.build.blocks, o.table, l.first, l.prev,
        o.local.processing)
  {
    var b := Base(l.max, sender, l.cname);
    BaseSize(l.max, sender, l.cname);
    PassSends(l, b, l.items);
    var q := FillItems(b, l.items, 0, 0);
    if q.added > 0 && !q.full {
      PassRotates(q.build, table, l.first, l.prev, 0);
      var r := FillFrom(q.build, table, 0, l.first, l.prev, |table|, 0, 0);
      ClearedAt(r.table, l.first, l.prev);
      RestRotated(Reportables(table, 0, l.first, l.prev), ClearFlags(r.table), l.first, l.prev, 0);
    }
  }

  /** One packet: it reports the next sources of the rotation, each at most once; only a packet that
      resumes an SDES cycle may report none. */
  lemma PacketReports(l: Local, table: seq<Source>, env: Env, k: nat)
    requires Proper(l) && l.init && table != [] && At(table, l.first, l.prev, k) && (l.processing ==> k == 0)
    ensures
      var o, all := NextPacket(l, table, env), Reportables(table, 0, l.first, l.prev);
      && SameFrom(o.table, table, 0)
      && Rotated(all, k, o.build.blocks, o.table, l.first, l.prev, o.local.processing)
      && (all != [] && !l.processing ==> o.build.blocks != [])
  {
    var sender := ReportSender(env, env.sender);
    NextParts(l, table, env);
    if l.processing {
      ResumeReports(l, table, sender);
    } else {
      FreshReports(l, table, sender, k);
    }
  }

  // ----- runs -----

  function Ssrcs(blocks: seq<ReportBlock>): (r: seq<U32>)
    ensures |r| == |blocks| && forall i :: 0 <= i < |r| ==> r[i] == blocks[i].ssrc
  {
    if blocks == [] then [] else [blocks[0].ssrc] + Ssrcs(blocks[1..])
  }

  lemma {:induction false} SsrcsOfRing(blocks: seq<ReportBlock>, p: nat, m: nat)
    requires p < |blocks|
    ensures Ssrcs(Ring(blocks, p, m)) == Ring(Ssrcs(blocks), p, m)
    decreases m
  {
    if m > 0 {
      SsrcsOfRing(blocks, After(|blocks|, p), m - 1);
      assert Ring(blocks, p, m)[1..] == Ring(blocks, After(|blocks|, p), m - 1);
    }
  }

  function Reported(bs: seq<Build>): seq<U32> {
    if bs == [] then [] else Ssrcs(bs[0].blocks) + Reported(bs[1..])
  }

  /** The same sources, still marked as they were left, and the same of them reportable. */
  predicate Carried(a: seq<Source>, l: Local, b: seq<Source>, l': Local) {
    && |a| == |b|
    && forall i :: 0 <= i < |a| ==>
      a[i].processed == b[i].processed && Reportable(a[i], l.first, l.prev) == Reportable(b[i], l'.first, l'.prev)
  }

  lemma {:induction false} MarkedCarried(a: seq<Source>, l: Local, b: seq<Source>, l': Local, i: nat, k: nat)
    requires Carried(a, l, b, l') && Marked(a, i, l.first, l.prev, k)
    ensures Marked(b, i, l'.first, l'.prev, k)
    decreases if i < |a| then |a| - i else 0
  {
    if i < |a| {
      MarkedCarried(a, l, b, l', i + 1, if Reportable(a[i], l.first, l.prev) && k > 0 then k - 1 else k);
    }
  }

  /** Initialising a builder that was destroyed unmarks every source. */
  predicate Restarts(l: Local, a: Action) {
    a.Init? && DoInitLocal(l, a.max, a.tsunit, a.name).1 == Built
  }

  /** The source table as the last packet left it, and the state in which that packet was built. */
  datatype Last = Last(table: seq<Source>, local: Local)

  function NextLast(last: Last, l: Local, a: Action): Last {
    if Asks(l, a) then Last(NextPacket(l, a.table, a.env).table, l) else last
  }

  /** Calls with a fixed source table: whenever a next packet is built, the reportable sources are those
      of `order`, with the marks that the packet before left. */
  predicate Steady(order: seq<U32>, last: Last, l: Local, actions: seq<Action>)
    requires Proper(l)
    decreases |actions|
  {
    actions == []
    || (&& Sensible(actions[0]) && !Restarts(l, actions[0])
        && (Asks(l, actions[0]) ==> SteadyTable(order, last, l, actions[0].table))
        && (ActOk(l, actions[0]);
            Steady(order, NextLast(last, l, actions[0]), Act(l, actions[0]).0, actions[1..])))
  }

  predicate SteadyTable(order: seq<U32>, last: Last, l: Local, table: seq<Source>) {
    table != [] && Ssrcs(Reportables(table, 0, l.first, l.prev)) == order && Carried(last.table, last.local, table, l)
  }

  lemma {:induction false} SteadyUndisturbed(order: seq<U32>, last: Last, l: Local, actions: seq<Action>)
    requires Proper(l) && Steady(order, last, l, actions)
    ensures Undisturbed(l, actions)
    decreases |actions|
  {
    if actions != [] {
      var a := actions[0];
      ActOk(l, a);
      SteadyReturns(order, last, l, a);
      SteadyUndisturbed(order, NextLast(last, l, a), Act(l, a).0, actions[1..]);
    }
  }

  lemma SteadyReturns(order: seq<U32>, last: Last, l: Local, a: Action)
    requires Proper(l) && Sensible(a) && (Asks(l, a) ==> SteadyTable(order, last, l, a.table))
    ensures Act(l, a).1 != NullSource
  {
    ActOk(l, a);
  }

  /** The reported sources `r` follow position `k` of the endless repetition of `order`. */
  predicate Follows(order: seq<U32>, k: nat, r: seq<U32>) {
    if order == [] then r == [] else k < |order| && r == Ring(order, k, |r|)
  }

  function Moved(order: seq<U32>, k: nat, m: nat): (q: nat)
    requires order != [] ==> k < |order|
  {
    if order == [] then 0 else Ahead(|order|, k, m)
  }

  lemma FollowsJoin(order: seq<U32>, k: nat, a: seq<U32>, b: seq<U32>)
    requires Follows(order, k, a) && Follows(order, Moved(order, k, |a|), b)
    ensures Follows(order, k, a + b)
  {
    if order != [] {
      RingAppend(order, k, |a|, |b|);
    }
  }

  /** Where the rotation stands: the first `k` reportable sources are marked, and never all of them. */
  predicate Stands(order: seq<U32>, last: Last, l: Local, k: nat) {
    && Marked(last.table, 0, last.local.first, last.local.prev, k) && (k < |order| || k == 0)
    && (l.processing ==> k == 0)
  }

  lemma SteadyPacket(order: seq<U32>, last: Last, l: Local, table: seq<Source>, env: Env, k: nat)
    requires Proper(l) && l.init && SteadyTable(order, last, l, table) && Distinct(order) && Stands(order, last, l, k)
    ensures
      var o := NextPacket(l, table, env);
      var r := Ssrcs(o.build.blocks);
      && Follows(order, k, r) && DistinctSources(o.build.blocks)
      && Stands(order, Last(o.table, l), o.local, Moved(order, k, |r|))
  {
    var o, all := NextPacket(l, table, env), Reportables(table, 0, l.first, l.prev);
    assert |all| == |order|;
    MarkedCarried(last.table, last.local, table, l, 0, k);
    PacketReports(l, table, env, k);
    if order != [] {
      SsrcsOfRing(all, k, |o.build.blocks|);
      RingDistinct(order, k, |o.build.blocks|);
    }
  }

  predicate EachDistinct(bs: seq<Build>) {
    forall i :: 0 <= i < |bs| ==> DistinctSources(bs[i].blocks)
  }

  /** What one call reports, and where it leaves the rotation. */
  ghost predicate Turned(order: seq<U32>, k: nat, sent: seq<Build>, last: Last, l: Local) {
    && Follows(order, k, Reported(sent)) && EachDistinct(sent)
    && Stands(order, last, l, Moved(order, k, |Reported(sent)|))
  }

  lemma ReportedOne(b: Build)
    ensures Reported([b]) == Ssrcs(b.blocks)
  {
    assert [b][1..] == [];
  }

  lemma ReportedFirst(x: seq<Build>, rest: seq<Build>)
    requires |x| <= 1
    ensures Reported(x + rest) == Reported(x) + Reported(rest)
  {
    if x == [] {
      assert x + rest == rest;
    } else {
      assert (x + rest)[1..] == rest && x[1..] == [];
    }
  }

  /** A call that builds no next packet reports no source and leaves the marks alone. */
  lemma QuietTurn(order: seq<U32>, last: Last, l: Local, a: Action, k: nat)
    requires Proper(l) && Sensible(a) && !Restarts(l, a) && !Asks(l, a) && Stands(order, last, l, k)
    ensures Turned(order, k, Sent(l, a), last, Act(l, a).0)
  {
    assert Act(l, a).0.processing == l.processing;
    if l.init && a.BuildBYEPacket? {
      ByeOutcome(l, a.reason, a.usesr, a.env);
      ReportedOne(ByePacket(l, a.reason, a.usesr, a.env).0);
    }
  }

  lemma Turn(order: seq<U32>, last: Last, l: Local, a: Action, k: nat)
    requires Proper(l) && Sensible(a) && !Restarts(l, a) && (Asks(l, a) ==> SteadyTable(order, last, l, a.table))
    requires Distinct(order) && Stands(order, last, l, k)
    ensures Turned(order, k, Sent(l, a), NextLast(last, l, a), Act(l, a).0)
  {
    if Asks(l, a) {
      SteadyPacket(order, last, l, a.table, a.env, k);
      ReportedOne(NextPacket(l, a.table, a.env).build);
    } else {
      QuietTurn(order, last, l, a, k);
    }
  }

  /** Round-robin over whole runs of calls: the sources reported by successive packets are the table
      order repeated endlessly, whatever setters, BYE packets and refused calls come in between, and no
      packet reports one source twice. */
  lemma {:induction false} RoundRobin(order: seq<U32>, last: Last, l: Local, actions: seq<Action>, k: nat)
    requires Proper(l) && Steady(order, last, l, actions) && Distinct(order) && Stands(order, last, l, k)
    ensures Undisturbed(l, actions)
    ensures Follows(order, k, Reported(Traced(l, actions).packets)) && EachDistinct(Traced(l, actions).packets)
    decreases |actions|
  {
    SteadyUndisturbed(order, last, l, actions);
    if actions != [] {
      var a := actions[0];
      var l', sent := Act(l, a).0, Sent(l, a);
      ActOk(l, a);
      Turn(order, last, l, a, k);
      RoundRobin(order, NextLast(last, l, a), l', actions[1..], Moved(order, k, |Reported(sent)|));
      var rest := Traced(l', actions[1..]).packets;
      ReportedFirst(sent, rest);
      FollowsJoin(order, k, Reported(sent), Reported(rest));
    }
  }

  /** When a builder is initialised, again or for the first time, the rotation stands at its start. */
  lemma RotationStarts(order: seq<U32>, l: Local, a: Action, table: seq<Source>)
    requires Proper(l) && Sensible(a) && Restarts(l, a)
    ensures Stands(order, Last(ClearFlags(table), Act(l, a).0), Act(l, a).0, 0)
  {
    ClearedAt(table, Act(l, a).0.first, Act(l, a).0.prev);
  }

  // ----- tables that change between packets -----

  /** The blocks of the reportable sources from number `i` on that are not marked. */
  function Unmarked(table: seq<Source>, i: nat, first: bool, prev: real): (r: seq<ReportBlock>)
    decreases if i < |table| then |table| - i else 0
  {
    if i >= |table| then []
    else if Reportable(table[i], first, prev) && !table[i].processed then
      [table[i].block] + Unmarked(table, i + 1, first, prev)
    else Unmarked(table, i + 1, first, prev)
  }

  lemma {:induction false} UnmarkedSame(a: seq<Source>, b: seq<Source>, i: nat, first: bool, prev: real)
    requires |a| == |b| && forall j :: i <= j < |a| ==> a[j] == b[j]
    ensures Unmarked(a, i, first, prev) == Unmarked(b, i, first, prev)
    decreases if i < |a| then |a| - i else 0
  {
    if i < |a| {
      UnmarkedSame(a, b, i + 1, first, prev);
    }
  }

  lemma {:induction false} UnmarkedReportable(table: seq<Source>, i: nat, first: bool, prev: real, x: ReportBlock)
    requires x in Unmarked(table, i, first, prev)
    ensures x in Reportables(table, i, first, prev)
    decreases if i < |table| then |table| - i else 0
  {
    if i < |table| && x in Unmarked(table, i + 1, first, prev) {
      UnmarkedReportable(table, i + 1, first, prev, x);
    }
  }

  lemma UnmarkedAmong(table: seq<Source>, first: bool, prev: real)
    ensures forall x :: x in Unmarked(table, 0, first, prev) ==> x in Reportables(table, 0, first, prev)
  {
    forall x | x in Unmarked(table, 0, first, prev)
      ensures x in Reportables(table, 0, first, prev)
    {
      UnmarkedReportable(table, 0, first, prev, x);
    }
  }

  lemma {:induction false} UnmarkedDistinct(table: seq<Source>, i: nat, first: bool, prev: real)
    requires DistinctSources(Reportables(table, i, first, prev))
    ensures DistinctSources(Unmarked(table, i, first, prev))
    decreases if i < |table| then |table| - i else 0
  {
    if i < |table| {
      var rest := Reportables(table, i + 1, first, prev);
      if Reportable(table[i], first, prev) {
        DistinctTail(table[i].block, rest);
        UnmarkedDistinct(table, i + 1, first, prev);
        var u := Unmarked(table, i + 1, first, prev);
        forall k | 0 <= k < |u|
          ensures u[k].ssrc != table[i].block.ssrc
        {
          UnmarkedReportable(table, i + 1, first, prev, u[k]);
        }
        DistinctHead(table[i].block, u);
      } else {
        UnmarkedDistinct(table, i + 1, first, prev);
      }
    }
  }

  lemma DistinctTail(x: ReportBlock, rest: seq<ReportBlock>)
    requires DistinctSources([x] + rest)
    ensures DistinctSources(rest) && forall y :: y in rest ==> y.ssrc != x.ssrc
  {
    var s := [x] + rest;
    assert forall i :: 0 <= i < |rest| ==> rest[i] == s[i + 1];
    forall y | y in rest
      ensures y.ssrc != x.ssrc
    {
      var i :| 0 <= i < |rest| && rest[i] == y;
      assert s[0] == x && s[i + 1] == y;
    }
  }

  lemma DistinctHead(x: ReportBlock, rest: seq<ReportBlock>)
    requires DistinctSources(rest) && forall y :: y in rest ==> y.ssrc != x.ssrc
    ensures DistinctSources([x] + rest)
  {
  }

  /** A pass reported unmarked sources, in order; all of them if it was not stopped. */
  ghost predicate PassedUnmarked(b: Build, table: seq<Source>, i: nat, first: bool, prev: real, added: nat, r: Filled) {
    var u, m := Unmarked(table, i, first, prev), r.added - added;
    && 0 <= m <= |u| && r.build == b.(blocks := b.blocks + u[..m]) && (!r.full ==> m == |u|)
    && SameFrom(r.table, table, 0)
  }

  lemma PassedUnmarkedOne(b: Build, table: seq<Source>, i: nat, first: bool, prev: real, added: nat, r: Filled)
    requires i < |table| && Reportable(table[i], first, prev) && !table[i].processed
    requires
      var b', table' := b.(blocks := b.blocks + [table[i].block]), table[i := table[i].(processed := true)];
      PassedUnmarked(b', table', i + 1, first, prev, added + 1, r)
    ensures PassedUnmarked(b, table, i, first, prev, added, r)
  {
    var table' := table[i := table[i].(processed := true)];
    var rest, m, x := Unmarked(table, i + 1, first, prev), r.added - added, table[i].block;
    UnmarkedSame(table, table', i + 1, first, prev);
    assert b.blocks + [x] + rest[..m - 1] == b.blocks + ([x] + rest)[..m];
  }

  lemma PassedNothing(b: Build, table: seq<Source>, i: nat, first: bool, prev: real, added: nat, r: Filled)
    requires r.build == b && r.table == table && r.added == added && (!r.full ==> Unmarked(table, i, first, prev) == [])
    ensures PassedUnmarked(b, table, i, first, prev, added, r)
  {
  }

  lemma {:induction false} NextUnmarked(b: Build, table: seq<Source>, i: nat, first: bool, prev: real, max: int,
      added: nat, skipped: nat)
    requires i < |table| && added + (|table| - i - 1) <= max && b.building && !b.sender.NoReport?
    ensures PassedUnmarked(b, table, i + 1, first, prev, added, FillNext(b, table, i, first, prev, max, added, skipped))
    decreases |table| - i, 0
  {
    if i + 1 < |table| {
      FillUnmarked(b, table, i + 1, first, prev, max, added, skipped);
    } else {
      PassedNothing(b, table, i + 1, first, prev, added, FillNext(b, table, i, first, prev, max, added, skipped));
    }
  }

  lemma {:induction false} FillUnmarked(b: Build, table: seq<Source>, i: nat, first: bool, prev: real, max: int,
      added: nat, skipped: nat)
    requires i < |table| && added + (|table| - i) <= max && b.building && !b.sender.NoReport?
    ensures PassedUnmarked(b, table, i, first, prev, added, FillFrom(b, table, i, first, prev, max, added, skipped))
    decreases |table| - i, 1
  {
    var s, r := table[i], FillFrom(b, table, i, first, prev, max, added, skipped);
    if !Reportable(s, first, prev) {
      NextUnmarked(b, table, i, first, prev, max, added, skipped);
    } else if s.processed {
      NextUnmarked(b, table, i, first, prev, max, added, skipped + 1);
    } else {
      var (b', status) := DoAddBlock(b, s.block);
      if status == NotEnoughBytesLeft {
        PassedNothing(b, table, i, first, prev, added, r);
      } else {
        var table' := table[i := s.(processed := true)];
        if added + 1 >= max {
          PassedNothing(b', table', i + 1, first, prev, added + 1, r);
        } else {
          NextUnmarked(b', table', i, first, prev, max, added + 1, skipped);
        }
        PassedUnmarkedOne(b, table, i, first, prev, added, r);
      }
    }
  }

  lemma RepeatsIff(all: seq<ReportBlock>, unmarked: seq<ReportBlock>, j: nat)
    requires j <= |all| && DistinctSources(all) && DistinctSources(unmarked)
    requires forall x :: x in unmarked ==> x in all
    ensures DistinctSources(unmarked + all[..j]) <==> forall i :: 0 <= i < j ==> all[i] !in unmarked
  {
    var s, n := unmarked + all[..j], |unmarked|;
    if i :| 0 <= i < j && all[i] in unmarked {
      var k :| 0 <= k < n && unmarked[k] == all[i];
      assert s[k] == s[n + i];
    } else {
      forall a, c | 0 <= a < c < |s|
        ensures s[a].ssrc != s[c].ssrc
      {
        if a < n <= c {
          assert unmarked[a] in all;
          var k :| 0 <= k < |all| && all[k] == unmarked[a];
          assert s[c] == all[c - n] && k != c - n;
        }
      }
    }
  }

  /** A pass that was not stopped skipped the marked sources. */
  ghost predicate SkippedMarked(table: seq<Source>, i: nat, first: bool, prev: real, skipped: nat, r: Filled) {
    !r.full ==> r.skipped + |Unmarked(table, i, first, prev)| == skipped + |Reportables(table, i, first, prev)|
  }

  lemma {:induction false} NextSkipped(b: Build, table: seq<Source>, i: nat, first: bool, prev: real, max: int,
      added: nat, skipped: nat)
    requires i < |table| && added + (|table| - i - 1) <= max && b.building && !b.sender.NoReport?
    ensures SkippedMarked(table, i + 1, first, prev, skipped, FillNext(b, table, i, first, prev, max, added, skipped))
    decreases |table| - i, 0
  {
    if i + 1 < |table| {
      SkippedCount(b, table, i + 1, first, prev, max, added, skipped);
    }
  }

  lemma {:induction false} SkippedCount(b: Build, table: seq<Source>, i: nat, first: bool, prev: real, max: int,
      added: nat, skipped: nat)
    requires i < |table| && added + (|table| - i) <= max && b.building && !b.sender.NoReport?
    ensures SkippedMarked(table, i, first, prev, skipped, FillFrom(b, table, i, first, prev, max, added, skipped))
    decreases |table| - i, 1
  {
    var s := table[i];
    if !Reportable(s, first, prev) {
      NextSkipped(b, table, i, first, prev, max, added, skipped);
    } else if s.processed {
      NextSkipped(b, table, i, first, prev, max, added, skipped + 1);
    } else {
      var (b', status) := DoAddBlock(b, s.block);
      MarkingKeeps(table, i, first, prev);
      if status == Ok {
        NextSkipped(b', table[i := s.(processed := true)], i, first, prev, max, added + 1, skipped);
      }
    }
  }

  /** Marking a source changes nothing for those after it. */
  lemma MarkingKeeps(table: seq<Source>, i: nat, first: bool, prev: real)
    requires i < |table|
    ensures
      var table' := table[i := table[i].(processed := true)];
      && Unmarked(table', i + 1, first, prev) == Unmarked(table, i + 1, first, prev)
      && Reportables(table', i + 1, first, prev) == Reportables(table, i + 1, first, prev)
  {
    var table' := table[i := table[i].(processed := true)];
    UnmarkedSame(table, table', i + 1, first, prev);
    ReportablesSame(table, table', i + 1, first, prev);
  }

  lemma {:induction false} UnmarkedWithin(table: seq<Source>, i: nat, first: bool, prev: real)
    ensures |Unmarked(table, i, first, prev)| <= |Reportables(table, i, first, prev)|
    decreases if i < |table| then |table| - i else 0
  {
    if i < |table| {
      UnmarkedWithin(table, i + 1, first, prev);
    }
  }

  /** These blocks and items fit in one packet. */
  predicate Roomy(l: Local, sender: Sender, blocks: seq<ReportBlock>, due: seq<Item>)
    requires !sender.NoReport?
  {
    Total(Filling(l.max, sender, blocks, [Item(1, l.cname)] + due)) <= l.max
  }

  /** There is room for the unmarked sources, the items that are due, and the first `j + 1` of all sources. */
  predicate RoomyAt(l: Local, sender: Sender, all: seq<ReportBlock>, u: seq<ReportBlock>, due: seq<Item>, j: nat)
    requires !sender.NoReport? && j < |all|
  {
    Roomy(l, sender, u + all[..j + 1], due)
  }

  lemma RoomyLess(l: Local, sender: Sender, blocks: seq<ReportBlock>, due: seq<Item>, more: seq<ReportBlock>)
    requires !sender.NoReport? && |blocks| <= |more| && Roomy(l, sender, more, due)
    ensures Roomy(l, sender, blocks, due)
  {
    FillingGrows(l.max, sender, blocks, [Item(1, l.cname)] + due, more, [Item(1, l.cname)] + due);
  }

  /** The blocks `r` of a packet: unmarked sources, `u` in all, and then, of the other `|all| - |u|`
      places, exactly those that there is room for, which go to the first of all sources. */
  ghost predicate Refilled(l: Local, sender: Sender, all: seq<ReportBlock>, u: seq<ReportBlock>, due: seq<Item>,
      r: seq<ReportBlock>, m: nat)
    requires !sender.NoReport?
  {
    && m <= |all| - |u|
    && (if m == 0 then r <= u else r == u + all[..m])
    && forall j :: 0 <= j < |all| - |u| ==> (RoomyAt(l, sender, all, u, due, j) <==> j < m)
  }

  /** Nothing is reported again when there is no room for one more block than `more`. */
  lemma NoneRefilled(l: Local, sender: Sender, all: seq<ReportBlock>, u: seq<ReportBlock>, due: seq<Item>,
      r: seq<ReportBlock>, more: seq<ReportBlock>)
    requires !sender.NoReport? && |u| <= |all| && r <= u && |more| <= |u| + 1 && !Roomy(l, sender, more, due)
    ensures Refilled(l, sender, all, u, due, r, 0)
  {
    forall j | 0 <= j < |all| - |u|
      ensures !RoomyAt(l, sender, all, u, due, j)
    {
      if Roomy(l, sender, u + all[..j + 1], due) {
        RoomyLess(l, sender, more, due, u + all[..j + 1]);
      }
    }
  }

  lemma SomeRefilled(l: Local, sender: Sender, all: seq<ReportBlock>, u: seq<ReportBlock>, due: seq<Item>, m: nat,
      x: ReportBlock)
    requires !sender.NoReport? && m <= |all| - |u| && Roomy(l, sender, u + all[..m], due)
    requires m < |all| - |u| ==> !Roomy(l, sender, u + all[..m] + [x], due)
    ensures Refilled(l, sender, all, u, due, u + all[..m], m)
  {
    forall j | 0 <= j < |all| - |u|
      ensures RoomyAt(l, sender, all, u, due, j) <==> j < m
    {
      if j < m {
        RoomyLess(l, sender, u + all[..j + 1], due, u + all[..m]);
      } else if Roomy(l, sender, u + all[..j + 1], due) {
        RoomyLess(l, sender, u + all[..m] + [x], due, u + all[..j + 1]);
      }
    }
  }

  lemma RefillExact(l: Local, table: seq<Source>, b: Build, all: seq<ReportBlock>, due: seq<Item>) returns (m: nat)
    requires table != [] && Marked(table, 0, l.first, l.prev, 0) && all == Reportables(table, 0, l.first, l.prev)
    requires !b.sender.NoReport? && b == Filling(l.max, b.sender, b.blocks, [Item(1, l.cname)] + due)
    requires Total(b) <= l.max && |b.blocks| <= |all|
    ensures Refilled(l, b.sender, all, b.blocks, due, Refill(l, table, b, |all| - |b.blocks|).build.blocks, m)
  {
    var u, skipped := b.blocks, |all| - |b.blocks|;
    m := 0;
    if skipped > 0 {
      FillPasses(b, table, 0, l.first, l.prev, skipped, 0, 0, 0);
      FillFromAdds(b, table, 0, l.first, l.prev, skipped, 0, 0);
      var r := FillFrom(b, table, 0, l.first, l.prev, skipped, 0, 0);
      FillFromFull(b, table, 0, l.first, l.prev, skipped, 0, 0, all[0]);
      m := r.added;
      assert r.build.blocks == u + all[..m];
      SomeRefilled(l, b.sender, all, u, due, m, all[0]);
    }
  }

  lemma NewCycleExact(l: Local, table: seq<Source>, b: Build, all: seq<ReportBlock>, skipped: nat) returns (m: nat)
    requires l.Shaped() && table != [] && Marked(table, 0, l.first, l.prev, 0)
    requires all == Reportables(table, 0, l.first, l.prev) && skipped + |b.blocks| == |all|
    requires !b.sender.NoReport? && b == Filling(l.max, b.sender, b.blocks, [Item(1, l.cname)]) && Total(b) <= l.max
    ensures
      var items := StartCycle(l.items, l.count + 1);
      var o := AfterItems(l, table, FillItems(b, items, 0, 0), skipped);
      Refilled(l, b.sender, all, b.blocks, Pending(items), o.build.blocks, m)
  {
    var items := StartCycle(l.items, l.count + 1);
    CyclePass(l, b);
    m := ItemsExact(l, table, b, all, Pending(items), FillItems(b, items, 0, 0), skipped);
  }

  /** A pass over the items of a new cycle: stopped, or through with the items that are due. */
  ghost predicate ItemsPass(l: Local, b: Build, due: seq<Item>, q: SdesFilled)
    requires !b.sender.NoReport?
  {
    && |q.items| == |l.items| && q.build.blocks == b.blocks
    && if q.full then !Roomy(l, b.sender, b.blocks, due)
       else q.build == Filling(l.max, b.sender, b.blocks, [Item(1, l.cname)] + due) && Total(q.build) <= l.max
  }

  lemma CyclePass(l: Local, b: Build)
    requires l.Shaped() && !b.sender.NoReport?
    requires b == Filling(l.max, b.sender, b.blocks, [Item(1, l.cname)]) && Total(b) <= l.max
    ensures
      var items := StartCycle(l.items, l.count + 1);
      ItemsPass(l, b, Pending(items), FillItems(b, items, 0, 0))
  {
    var items := StartCycle(l.items, l.count + 1);
    StartCycleSame(l.items, l.count + 1);
    CycleSendable(l, l.count + 1);
    PassSends(l, b, items);
    StoppedIff(l.max, b.sender, b.blocks, l.cname, items);
    PassBuild(l, b, items);
  }

  lemma ItemsExact(l: Local, table: seq<Source>, b: Build, all: seq<ReportBlock>, due: seq<Item>, q: SdesFilled,
      skipped: nat) returns (m: nat)
    requires table != [] && Marked(table, 0, l.first, l.prev, 0) && all == Reportables(table, 0, l.first, l.prev)
    requires skipped + |b.blocks| == |all| && !b.sender.NoReport? && ItemsPass(l, b, due, q)
    ensures
      Refilled(l, b.sender, all, b.blocks, due, AfterItems(l, table, q, skipped).build.blocks, m)
  {
    if q.full {
      m := 0;
      NoneRefilled(l, b.sender, all, b.blocks, due, b.blocks, b.blocks);
    } else {
      var l' := l.(count := l.count + 1, items := ClearProcessed(q.items));
      m := RefillExact(l', table, q.build, all, due);
      SameRoom(l, l', b.sender, all, b.blocks, due, Refill(l', table, q.build, skipped).build.blocks, m);
    }
  }

  /** The packet after a pass over the items that was not stopped. */
  lemma PassBuild(l: Local, b: Build, items: seq<LocalItem>)
    requires Sendable(items) && !b.sender.NoReport?
    requires b == Filling(l.max, b.sender, b.blocks, [Item(1, l.cname)]) && Total(b) <= l.max
    ensures
      var q := FillItems(b, items, 0, 0);
      !q.full ==> q.build == Filling(l.max, b.sender, b.blocks, [Item(1, l.cname)] + Pending(items))
  {
    FillItemsSends(b, items, 0, 0);
    assert items[0..] == items;
    ExtraOf(l.max, b.sender, b.blocks, l.cname, Pending(items));
    assert Pending(items)[..|Pending(items)|] == Pending(items);
  }

  lemma SameRoom(l: Local, l': Local, sender: Sender, all: seq<ReportBlock>, u: seq<ReportBlock>, due: seq<Item>,
      r: seq<ReportBlock>, m: nat)
    requires !sender.NoReport? && l.max == l'.max && l.cname == l'.cname && Refilled(l', sender, all, u, due, r, m)
    ensures Refilled(l, sender, all, u, due, r, m)
  {
    forall j | 0 <= j < |all| - |u|
      ensures RoomyAt(l, sender, all, u, due, j) <==> j < m
    {
      assert RoomyAt(l', sender, all, u, due, j) <==> j < m;
    }
  }

  /** The first pass: stopped for lack of room, or through with the unmarked sources. */
  ghost predicate FirstPass(l: Local, table: seq<Source>, sender: Sender, r: Filled)
    requires table != [] && !sender.NoReport?
  {
    var all, u := Reportables(table, 0, l.first, l.prev), Unmarked(table, 0, l.first, l.prev);
    && r.status == Ok && SameFrom(r.table, table, 0)
    && r.build == Filling(l.max, sender, r.build.blocks, [Item(1, l.cname)]) && Total(r.build) <= l.max
    && if r.full then
         && r.build.blocks <= u
         && Total(r.build.(blocks := r.build.blocks + [table[0].block])) > l.max
       else r.build.blocks == u && r.skipped + |u| == |all|
  }

  lemma FirstPassFrom(l: Local, table: seq<Source>, sender: Sender, b: Build, r: Filled)
    requires table != [] && !sender.NoReport? && b == Base(l.max, sender, l.cname)
    requires r.status == Ok && r.build == b.(blocks := r.build.blocks) && Total(r.build) <= l.max
    requires PassedUnmarked(b, table, 0, l.first, l.prev, 0, r)
    requires r.full ==> Total(r.build.(blocks := r.build.blocks + [table[0].block])) > l.max
    requires !r.full ==>
      r.skipped + |Unmarked(table, 0, l.first, l.prev)| == |Reportables(table, 0, l.first, l.prev)|
    ensures FirstPass(l, table, sender, r)
  {
    var u := Unmarked(table, 0, l.first, l.prev);
    assert r.build.blocks == [] + u[..r.added] == u[..r.added];
    assert u[..|u|] == u;
  }

  lemma FirstPassDone(l: Local, table: seq<Source>, sender: Sender)
    requires l.Shaped() && l.init && table != [] && !sender.NoReport?
    ensures
      FirstPass(l, table, sender, FillFrom(Base(l.max, sender, l.cname), table, 0, l.first, l.prev, |table|, 0, 0))
  {
    var b := Base(l.max, sender, l.cname);
    BaseSize(l.max, sender, l.cname);
    FillFromAdds(b, table, 0, l.first, l.prev, |table|, 0, 0);
    FillUnmarked(b, table, 0, l.first, l.prev, |table|, 0, 0);
    FillFromFull(b, table, 0, l.first, l.prev, |table|, 0, 0, table[0].block);
    SkippedCount(b, table, 0, l.first, l.prev, |table|, 0, 0);
    FirstPassFrom(l, table, sender, b, FillFrom(b, table, 0, l.first, l.prev, |table|, 0, 0));
  }

  lemma FreshExact(l: Local, table: seq<Source>, sender: Sender) returns (m: nat)
    requires l.Shaped() && l.init && !l.processing && table != [] && !sender.NoReport?
    ensures
      var all, u := Reportables(table, 0, l.first, l.prev), Unmarked(table, 0, l.first, l.prev);
      var due := Pending(StartCycle(l.items, l.count + 1));
      Refilled(l, sender, all, u, due, Fresh(l, table, Base(l.max, sender, l.cname)).build.blocks, m)
  {
    FirstPassDone(l, table, sender);
    m := FreshAfter(l, table, sender, FillFrom(Base(l.max, sender, l.cname), table, 0, l.first, l.prev, |table|, 0, 0));
  }

  lemma FreshAfter(l: Local, table: seq<Source>, sender: Sender, r: Filled) returns (m: nat)
    requires l.Shaped() && !l.processing && table != [] && !sender.NoReport? && FirstPass(l, table, sender, r)
    ensures
      var all, u := Reportables(table, 0, l.first, l.prev), Unmarked(table, 0, l.first, l.prev);
      var items := StartCycle(l.items, l.count + 1);
      var b := if r.full then r.build
        else AfterItems(l, ClearFlags(r.table), FillItems(r.build, items, 0, 0), r.skipped).build;
      Refilled(l, sender, all, u, Pending(items), b.blocks, m)
  {
    var all, u := Reportables(table, 0, l.first, l.prev), Unmarked(table, 0, l.first, l.prev);
    UnmarkedWithin(table, 0, l.first, l.prev);
    if r.full {
      m := 0;
      StoppedExact(l, sender, all, u, Pending(StartCycle(l.items, l.count + 1)), r.build, table[0].block);
    } else {
      m := PassedExact(l, sender, table, r, all);
    }
  }

  lemma StoppedExact(l: Local, sender: Sender, all: seq<ReportBlock>, u: seq<ReportBlock>, due: seq<Item>, b: Build,
      x: ReportBlock)
    requires !sender.NoReport? && |u| <= |all| && b.blocks <= u
    requires b == Filling(l.max, sender, b.blocks, [Item(1, l.cname)]) && Total(b.(blocks := b.blocks + [x])) > l.max
    ensures Refilled(l, sender, all, u, due, b.blocks, 0)
  {
    BlocksOnly(l, sender, b.blocks + [x], due);
    NoneRefilled(l, sender, all, u, due, b.blocks, b.blocks + [x]);
  }

  lemma PassedExact(l: Local, sender: Sender, table: seq<Source>, r: Filled, all: seq<ReportBlock>) returns (m: nat)
    requires l.Shaped() && !l.processing && table != [] && SameFrom(r.table, table, 0) && !sender.NoReport?
    requires all == Reportables(table, 0, l.first, l.prev) && r.skipped + |r.build.blocks| == |all|
    requires r.build == Filling(l.max, sender, r.build.blocks, [Item(1, l.cname)]) && Total(r.build) <= l.max
    ensures
      var items := StartCycle(l.items, l.count + 1);
      var o := AfterItems(l, ClearFlags(r.table), FillItems(r.build, items, 0, 0), r.skipped);
      Refilled(l, sender, all, r.build.blocks, Pending(items), o.build.blocks, m)
  {
    ClearedAt(r.table, l.first, l.prev);
    ReportablesSame(r.table, table, 0, l.first, l.prev);
    m := NewCycleExact(l, ClearFlags(r.table), r.build, all, r.skipped);
  }

  /** Without room for the blocks there is none for the blocks and the items. */
  lemma BlocksOnly(l: Local, sender: Sender, blocks: seq<ReportBlock>, due: seq<Item>)
    requires !sender.NoReport? && Total(Filling(l.max, sender, blocks, [Item(1, l.cname)])) > l.max
    ensures !Roomy(l, sender, blocks, due)
  {
    FillingGrows(l.max, sender, blocks, [Item(1, l.cname)], blocks, [Item(1, l.cname)] + due);
  }

  /** A resumed packet reports unmarked sources only. */
  lemma ResumeUnmarked(l: Local, table: seq<Source>, sender: Sender)
    requires Proper(l) && l.init && l.processing && !sender.NoReport?
    ensures Resume(l, table, Base(l.max, sender, l.cname)).build.blocks <= Unmarked(table, 0, l.first, l.prev)
  {
    var b := Base(l.max, sender, l.cname);
    BaseSize(l.max, sender, l.cname);
    PassSends(l, b, l.items);
    if table != [] {
      AfterUnmarked(l, table, FillItems(b, l.items, 0, 0).build);
    }
  }

  lemma AfterUnmarked(l: Local, table: seq<Source>, b: Build)
    requires table != [] && b.building && !b.sender.NoReport? && b.blocks == []
    ensures FillFrom(b, table, 0, l.first, l.prev, |table|, 0, 0).build.blocks <= Unmarked(table, 0, l.first, l.prev)
  {
    FillUnmarked(b, table, 0, l.first, l.prev, |table|, 0, 0);
  }

  lemma PacketExact(l: Local, table: seq<Source>, env: Env) returns (m: nat)
    requires Proper(l) && l.init && !l.processing
    ensures
      var all, u := Reportables(table, 0, l.first, l.prev), Unmarked(table, 0, l.first, l.prev);
      var due := Pending(StartCycle(l.items, l.count + 1));
      Refilled(l, ReportSender(env, env.sender), all, u, due, NextPacket(l, table, env).build.blocks, m)
  {
    NextParts(l, table, env);
    if table == [] {
      m := 0;
    } else {
      m := FreshExact(l, table, ReportSender(env, env.sender));
    }
  }

  lemma DistinctPrefix(u: seq<ReportBlock>, r: seq<ReportBlock>)
    requires r <= u && DistinctSources(u)
    ensures DistinctSources(r)
  {
    assert forall i :: 0 <= i < |r| ==> r[i] == u[i];
  }

  /** There is room after the unmarked sources for a first source that is itself unmarked. */
  predicate RoomAgain(l: Local, sender: Sender, all: seq<ReportBlock>, u: seq<ReportBlock>, due: seq<Item>)
    requires !sender.NoReport?
  {
    exists j :: 0 <= j < |all| - |u| && all[j] in u && RoomyAt(l, sender, all, u, due, j)
  }

  /** The guard of the double report: some source is unmarked and also among the first of all sources,
      which get the places of the marked ones, and what comes before it in the packet leaves it room. */
  ghost predicate ReportedAgain(l: Local, table: seq<Source>, env: Env) {
    var all, u := Reportables(table, 0, l.first, l.prev), Unmarked(table, 0, l.first, l.prev);
    var due := Pending(StartCycle(l.items, l.count + 1));
    !l.processing && RoomAgain(l, ReportSender(env, env.sender), all, u, due)
  }

  /** For any table and marks whatever: a packet reports some source twice if and only if this holds of
      the table, the marks, the items that are due and the size limit. */
  lemma ReportsTwiceIff(l: Local, table: seq<Source>, env: Env)
    requires Proper(l) && l.init && DistinctSources(Reportables(table, 0, l.first, l.prev))
    ensures !DistinctSources(NextPacket(l, table, env).build.blocks) <==> ReportedAgain(l, table, env)
  {
    if l.processing {
      UnmarkedDistinct(table, 0, l.first, l.prev);
      NextParts(l, table, env);
      ResumeUnmarked(l, table, ReportSender(env, env.sender));
      DistinctPrefix(Unmarked(table, 0, l.first, l.prev), NextPacket(l, table, env).build.blocks);
    } else {
      var m := PacketExact(l, table, env);
      RefilledAgain(l, table, env, NextPacket(l, table, env).build.blocks, m);
    }
  }

  lemma RefilledAgain(l: Local, table: seq<Source>, env: Env, r: seq<ReportBlock>, m: nat)
    requires DistinctSources(Reportables(table, 0, l.first, l.prev)) && !l.processing
    requires
      var all, u := Reportables(table, 0, l.first, l.prev), Unmarked(table, 0, l.first, l.prev);
      Refilled(l, ReportSender(env, env.sender), all, u, Pending(StartCycle(l.items, l.count + 1)), r, m)
    ensures !DistinctSources(r) <==> ReportedAgain(l, table, env)
  {
    var all, u := Reportables(table, 0, l.first, l.prev), Unmarked(table, 0, l.first, l.prev);
    DistinctAmong(table, l.first, l.prev, all, u);
    RefilledTwice(l, ReportSender(env, env.sender), all, u, Pending(StartCycle(l.items, l.count + 1)), r, m);
  }

  lemma DistinctAmong(table: seq<Source>, first: bool, prev: real, all: seq<ReportBlock>, u: seq<ReportBlock>)
    requires all == Reportables(table, 0, first, prev) && u == Unmarked(table, 0, first, prev) && DistinctSources(all)
    ensures DistinctSources(u) && Among(u, all)
  {
    UnmarkedDistinct(table, 0, first, prev);
    UnmarkedAmong(table, first, prev);
  }

  predicate Among(u: seq<ReportBlock>, all: seq<ReportBlock>) {
    forall x :: x in u ==> x in all
  }

  lemma RefilledTwice(l: Local, sender: Sender, all: seq<ReportBlock>, u: seq<ReportBlock>, due: seq<Item>,
      r: seq<ReportBlock>, m: nat)
    requires !sender.NoReport? && DistinctSources(all) && DistinctSources(u) && Among(u, all)
    requires Refilled(l, sender, all, u, due, r, m)
    ensures !DistinctSources(r) <==> RoomAgain(l, sender, all, u, due)
  {
    if m == 0 {
      DistinctPrefix(u, r);
    } else {
      RepeatsIff(all, u, m);
      if i :| 0 <= i < m && all[i] in u {
        assert RoomyAt(l, sender, all, u, due, i);
      }
    }
  }

  // ----- a source that is reported twice -----

  lemma {:induction false} UnmarkedCount(table: seq<Source>, i: nat, first: bool, prev: real, k: nat)
    requires Marked(table, i, first, prev, k)
    ensures |Unmarked(table, i, first, prev)| + k == |Reportables(table, i, first, prev)|
    decreases if i < |table| then |table| - i else 0
  {
    if i < |table| {
      UnmarkedCount(table, i + 1, first, prev, if Reportable(table[i], first, prev) && k > 0 then k - 1 else k);
    }
  }

  /** When all sources from number `i` on are reportable, their blocks are the reportable ones. */
  lemma {:induction false} ReportablesAll(table: seq<Source>, i: nat, first: bool, prev: real)
    requires i <= |table| && forall j :: i <= j < |table| ==> Reportable(table[j], first, prev)
    ensures
      var all := Reportables(table, i, first, prev);
      |all| == |table| - i && forall j :: 0 <= j < |all| ==> all[j] == table[i + j].block
    decreases |table| - i
  {
    if i < |table| {
      ReportablesAll(table, i + 1, first, prev);
      var rest := Reportables(table, i + 1, first, prev);
      forall j | 0 < j <= |rest|
        ensures ([table[i].block] + rest)[j] == table[i + j].block
      {
        assert rest[j - 1] == table[i + 1 + (j - 1)].block;
      }
    }
  }

  lemma {:induction false} MarkedLater(a: seq<Source>, b: seq<Source>, i: nat, prev: real, later: real, k: nat)
    requires |a| == |b| && Marked(a, i, true, prev, k)
    requires forall j :: i <= j < |a| ==>
      a[j].processed == b[j].processed && Reportable(a[j], true, prev) && Reportable(b[j], false, later)
    ensures Marked(b, i, false, later, k)
    decreases if i < |a| then |a| - i else 0
  {
    if i < |a| {
      MarkedLater(a, b, i + 1, prev, later, if k > 0 then k - 1 else k);
    }
  }

  /** Fifteen sources, of which the first has not sent anything yet. */
  function Early(): (table: seq<Source>)
    ensures |table| == 15
  {
    seq(15, i requires 0 <= i < 15 => Source(ReportBlock(i, 0, 0, 0, 0, 0, 0), false, false, i > 0, 0.0, false))
  }

  /** The sources as they were left, all of which have sent something after that time. */
  function Later(table: seq<Source>, time: real): (r: seq<Source>)
    ensures |r| == |table|
    ensures forall i :: 0 <= i < |r| ==> r[i] == table[i].(hassent := true, lastrtp := time + 1.0)
  {
    seq(|table|, i requires 0 <= i < |table| => table[i].(hassent := true, lastrtp := time + 1.0))
  }

  /** The smallest maximum size, a CNAME of 255 bytes, and no other items. */
  predicate LongName(l: Local) {
    && Proper(l) && l.init && !l.processing && l.max == 600 && |l.cname| == 255
    && Pending(StartCycle(l.items, l.count + 1)) == []
  }

  /** A first pass with room for 12 or 13 of 14 sources. */
  ghost predicate MostMarked(r: Filled, prev: real) {
    && r.full && |r.table| == 15 && 12 <= r.added <= 13 && r.table[0] == Early()[0]
    && Marked(r.table, 1, true, prev, r.added) && SameFrom(r.table, Early(), 0)
  }

  lemma EarlyPass(cname: Text, prev: real, sender: Sender)
    requires |cname| == 255 && !sender.NoReport?
    ensures
      var r := FillFrom(Base(600, sender, cname), Early(), 0, true, prev, 15, 0, 0);
      MostMarked(r, prev) && r.status == Ok
  {
    var b, table := Base(600, sender, cname), Early();
    var r := FillFrom(b, table, 1, true, prev, 15, 0, 0);
    BaseSize(600, sender, cname);
    MarkedNone(table, 1, true, prev);
    ReportablesAll(table, 1, true, prev);
    FillPasses(b, table, 1, true, prev, 15, 0, 0, 0);
    FillFromAdds(b, table, 1, true, prev, 15, 0, 0);
    FillFromFull(b, table, 1, true, prev, 15, 0, 0, table[0].block);
    EarlySize(sender, cname, r.build.blocks);
    assert |r.build.blocks| == r.added;
    if r.full {
      EarlySize(sender, cname, r.build.blocks + [table[0].block]);
    }
  }

  lemma EarlySize(sender: Sender, cname: Text, blocks: seq<ReportBlock>)
    requires |cname| == 255 && !sender.NoReport?
    ensures |blocks| <= 31 ==>
      Total(Filling(600, sender, blocks, [Item(1, cname)])) == 268 + 24 * |blocks| + if sender.SR? then 28 else 8
  {
    ItemsSizeOne(Item(1, cname));
    FillingSize(600, sender, blocks, [Item(1, cname)]);
  }

  /** The first packet leaves the marks of that pass. */
  lemma EarlyPacket(l: Local, env: Env) returns (r: Filled)
    requires LongName(l) && l.first
    ensures
      var o := NextPacket(l, Early(), env);
      MostMarked(r, l.prev) && o.status == Built && o.local == l.(first := false, prev := env.curtime)
        && o.table == r.table
  {
    var sender := ReportSender(env, env.sender);
    r := FillFrom(Base(600, sender, l.cname), Early(), 0, true, l.prev, 15, 0, 0);
    EarlyPass(l.cname, l.prev, sender);
    EarlyFresh(l, Base(600, sender, l.cname));
    NextParts(l, Early(), env);
  }

  lemma EarlyFresh(l: Local, b: Build)
    requires l.first && MostMarked(FillFrom(b, Early(), 0, true, l.prev, 15, 0, 0), l.prev)
    requires FillFrom(b, Early(), 0, true, l.prev, 15, 0, 0).status == Ok
    ensures
      var r := FillFrom(b, Early(), 0, true, l.prev, 15, 0, 0);
      Fresh(l, Early(), b) == Outcome(l, r.table, r.build, Built)
  {
  }

  /** Then all are reportable, and the first of them is unmarked. */
  lemma LaterMarks(r: Filled, prev: real, time: real)
    requires MostMarked(r, prev)
    ensures
      var table := Later(r.table, time);
      var all, u := Reportables(table, 0, false, time), Unmarked(table, 0, false, time);
      && |all| == 15 && DistinctSources(all) && |u| == 15 - r.added && u[0] == all[0]
  {
    var table := Later(r.table, time);
    assert forall j :: 0 <= j < 15 ==> r.table[j].(processed := false) == Early()[j].(processed := false);
    ReportablesAll(r.table, 1, true, prev);
    ReportablesAll(table, 0, false, time);
    ReportablesAll(table, 1, false, time);
    MarkedLater(r.table, table, 1, prev, time, r.added);
    UnmarkedCount(table, 1, false, time, r.added);
  }

  lemma LaterRoom(l: Local, sender: Sender, blocks: seq<ReportBlock>)
    requires LongName(l) && |blocks| <= 4 && !sender.NoReport?
    ensures Roomy(l, sender, blocks, Pending(StartCycle(l.items, l.count + 1)))
  {
    EarlySize(sender, l.cname, blocks);
    assert [Item(1, l.cname)] + [] == [Item(1, l.cname)];
  }

  lemma LaterAgain(l: Local, r: Filled, prev: real, env: Env)
    requires LongName(l) && !l.first && MostMarked(r, prev)
    ensures !DistinctSources(NextPacket(l, Later(r.table, l.prev), env).build.blocks)
  {
    var table := Later(r.table, l.prev);
    var all, u := Reportables(table, 0, false, l.prev), Unmarked(table, 0, false, l.prev);
    LaterMarks(r, prev, l.prev);
    LaterRoom(l, ReportSender(env, env.sender), u + all[..1]);
    assert RoomyAt(l, ReportSender(env, env.sender), all, u, Pending(StartCycle(l.items, l.count + 1)), 0);
    assert ReportedAgain(l, table, env);
    ReportsTwiceIff(l, table, env);
  }

  /** The first packet reports no source twice; the second does, for the same sources and one more, listed
      before them, that has just begun to send. */
  ghost predicate SecondRepeats(l: Local, env: Env, next: Env) {
    var o := NextPacket(l, Early(), env);
    && o.status == Built && DistinctSources(o.build.blocks)
    && !DistinctSources(NextPacket(o.local, Later(o.table, env.curtime), next).build.blocks)
  }

  lemma LateRepeats(l: Local, env: Env, next: Env)
    requires LongName(l) && l.first
    ensures SecondRepeats(l, env, next)
  {
    var r := EarlyPacket(l, env);
    LongNameLater(l, env.curtime);
    LaterAgain(l.(first := false, prev := env.curtime), r, l.prev, next);
    EarlyDistinct(l, env);
  }

  lemma LongNameLater(l: Local, time: real)
    requires LongName(l)
    ensures LongName(l.(first := false, prev := time))
  {
  }

  lemma EarlyDistinct(l: Local, env: Env)
    requires LongName(l) && l.first
    ensures DistinctSources(NextPacket(l, Early(), env).build.blocks)
  {
    ReportablesAll(Early(), 1, true, l.prev);
    MarkedNone(Early(), 0, true, l.prev);
    NoMarksDistinct(l, Early(), env);
  }

  /** When no source is marked, no packet reports a source twice. */
  lemma NoMarksDistinct(l: Local, table: seq<Source>, env: Env)
    requires Proper(l) && l.init && Marked(table, 0, l.first, l.prev, 0)
    requires DistinctSources(Reportables(table, 0, l.first, l.prev))
    ensures DistinctSources(NextPacket(l, table, env).build.blocks)
  {
    UnmarkedCount(table, 0, l.first, l.prev, 0);
    ReportsTwiceIff(l, table, env);
  }

  /** It does happen, from a new builder, and needs no other calls than Init. */
  lemma LateSourceTwice(t: Text, env: Env, next: Env)
    requires |t| == 255
    ensures SecondRepeats(DoInitLocal(NEW_LOCAL, 600, 0.0, t).0, env, next)
  {
    InitLongName(t);
    LateRepeats(DoInitLocal(NEW_LOCAL, 600, 0.0, t).0, env, next);
  }

  lemma InitLongName(t: Text)
    requires |t| == 255
    ensures LongName(DoInitLocal(NEW_LOCAL, 600, 0.0, t).0) && DoInitLocal(NEW_LOCAL, 600, 0.0, t).0.first
  {
    NothingSet();
  }

  lemma NothingSet()
    ensures WithoutIntervals(NEW_ITEMS) == NEW_ITEMS && Pending(StartCycle(NEW_ITEMS, 1)) == []
  {
    assert WithoutIntervals(NEW_ITEMS) == NEW_ITEMS;
    NoneDue(NEW_ITEMS, 1);
    DueStart(NEW_ITEMS, 1);
  }
}
