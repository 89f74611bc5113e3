/** The minimum size of 600 bytes is enough: with it, a packet always has room for its fixed part
    and for one report block, one SDES item or a BYE packet, so no call ever gives up. */
module PacketBuilderSizes {
  import opened Wire
  import opened SdesFormat
  import opened SdesParser
  import opened ReportFormat
  import opened ByeAppFormat
  import opened BuilderModel
  import opened PacketSizes
  import opened PacketBuilderModel

  // ----- worst cases -----

  /** A packet that is being filled: a report, one source and nothing else. */
  function Filling(max: Size, sender: Sender, blocks: seq<ReportBlock>, items: seq<Item>): (b: Build)
    requires !sender.NoReport?
  {
    Build(max, true, false, sender, blocks, [Chunk(sender.ssrc, items)], [], [])
  }

  function Base(max: Size, sender: Sender, cname: Text): (b: Build)
    requires !sender.NoReport?
  {
    Filling(max, sender, [], [Item(1, cname)])
  }

  lemma FillingSize(max: Size, sender: Sender, blocks: seq<ReportBlock>, items: seq<Item>)
    requires !sender.NoReport?
    ensures Total(Filling(max, sender, blocks, items))
      == ReportSize(sender, |blocks|) + 8 + Align4(ItemsSize(items) + 1)
  {
    ChunksSizeOne(Chunk(sender.ssrc, items));
    assert Groups(1) == 1;
  }

  /** A sender report and a CNAME of 255 bytes: 296 bytes. */
  lemma BaseSize(max: Size, sender: Sender, cname: Text)
    requires !sender.NoReport?
    ensures Total(Base(max, sender, cname)) == FixedSize(sender) + 8 + Align4(|cname| + 3) <= 296
  {
    ItemsSizeOne(Item(1, cname));
    FillingSize(max, sender, [], [Item(1, cname)]);
  }

  /** One more report block: 320 bytes. */
  lemma BaseWithBlockSize(max: Size, sender: Sender, cname: Text, block: ReportBlock)
    requires !sender.NoReport?
    ensures Total(Filling(max, sender, [block], [Item(1, cname)])) == Total(Base(max, sender, cname)) + 24 <= 320
  {
    BaseSize(max, sender, cname);
    FillingSize(max, sender, [], [Item(1, cname)]);
    FillingSize(max, sender, [block], [Item(1, cname)]);
  }

  /** One more item of 255 bytes: 552 bytes. */
  lemma BaseWithItemSize(max: Size, sender: Sender, cname: Text, item: Item)
    requires !sender.NoReport?
    ensures Total(Filling(max, sender, [], [Item(1, cname), item])) <= 552
  {
    var cn := Item(1, cname);
    assert [cn] + [item] == [cn, item];
    ItemsSizeAppend([cn], [item]);
    ItemsSizeOne(cn);
    ItemsSizeOne(item);
    FillingSize(max, sender, [], [cn, item]);
  }

  /** A BYE packet with a reason of 255 bytes: 560 bytes. */
  lemma BaseWithByeSize(max: Size, sender: Sender, cname: Text, bye: Bye)
    requires !sender.NoReport? && |bye.ssrcs| == 1
    ensures Total(Base(max, sender, cname).(byes := [bye])) <= 560
  {
    BaseSize(max, sender, cname);
    assert [bye][..0] == [];
  }

  lemma BeginOk(max: Size, sender: Sender, cname: Text)
    requires !sender.NoReport? && MIN_PACKET_SIZE <= max
    ensures Begin(max, sender, cname) == (Base(max, sender, cname), Built)
  {
    var b0 := EMPTY.(max := max, building := true);
    var b1 := b0.(sender := sender);
    assert DoInit(EMPTY, max, MaxPacketSizeTooSmall) == (b0, Ok);
    assert DoStart(b0, sender) == (b1, Ok);
    var b2 := Filling(max, sender, [], []);
    assert [] + [Chunk(sender.ssrc, [])] == [Chunk(sender.ssrc, [])];
    assert DoAddSource(b1, sender.ssrc) == (b2, Ok);
    BaseSize(max, sender, cname);
    assert [] + [Item(1, cname)] == [Item(1, cname)];
    assert WithItem(b2.chunks, Item(1, cname)) == Base(max, sender, cname).chunks;
    assert DoAddNormalItem(b2, CNAME, cname) == (Base(max, sender, cname), Ok);
  }

  // ----- what the two passes leave behind -----

  /** A pass over the sources only adds blocks. */
  lemma {:induction false} FillFromAdds(b: Build, table: seq<Source>, i: nat, first: bool, prev: real, max: int,
      added: nat, skipped: nat)
    requires i < |table| && b.building && !b.sender.NoReport? && Total(b) <= b.max
    ensures
      var r := FillFrom(b, table, i, first, prev, max, added, skipped);
      && r.status == Ok && added <= r.added && b.blocks <= r.build.blocks
      && r.build == b.(blocks := r.build.blocks) && Total(r.build) <= b.max
    decreases |table| - i
  {
    var s := table[i];
    if !Reportable(s, first, prev) {
      if i + 1 < |table| { FillFromAdds(b, table, i + 1, first, prev, max, added, skipped); }
    } else if s.processed {
      if i + 1 < |table| { FillFromAdds(b, table, i + 1, first, prev, max, added, skipped + 1); }
    } else {
      var (b', status) := DoAddBlock(b, s.block);
      if status == Ok && added + 1 < max && i + 1 < |table| {
        FillFromAdds(b', table[i := s.(processed := true)], i + 1, first, prev, max, added + 1, skipped);
      }
    }
  }

  /** A pass that stopped for lack of room had none for any other block. */
  lemma {:induction false} NextFull(b: Build, table: seq<Source>, i: nat, first: bool, prev: real, max: int,
      added: nat, skipped: nat, x: ReportBlock)
    requires i < |table| && b.building && !b.sender.NoReport?
    ensures
      var r := FillNext(b, table, i, first, prev, max, added, skipped);
      r.full ==> Total(r.build.(blocks := r.build.blocks + [x])) > b.max
    decreases |table| - i, 0
  {
    if i + 1 < |table| {
      FillFromFull(b, table, i + 1, first, prev, max, added, skipped, x);
    }
  }

  lemma {:induction false} FillFromFull(b: Build, table: seq<Source>, i: nat, first: bool, prev: real, max: int,
      added: nat, skipped: nat, x: ReportBlock)
    requires i < |table| && b.building && !b.sender.NoReport?
    ensures
      var r := FillFrom(b, table, i, first, prev, max, added, skipped);
      r.full ==> Total(r.build.(blocks := r.build.blocks + [x])) > b.max
    decreases |table| - i, 1
  {
    var s := table[i];
    if !Reportable(s, first, prev) {
      NextFull(b, table, i, first, prev, max, added, skipped, x);
    } else if s.processed {
      NextFull(b, table, i, first, prev, max, added, skipped + 1, x);
    } else {
      var (b', status) := DoAddBlock(b, s.block);
      if status == Ok {
        NextFull(b', table[i := s.(processed := true)], i, first, prev, max, added + 1, skipped, x);
      }
    }
  }

  /** More blocks and more items make a larger packet. */
  lemma FillingGrows(max: Size, sender: Sender, blocks: seq<ReportBlock>, items: seq<Item>, more: seq<ReportBlock>,
      others: seq<Item>)
    requires !sender.NoReport? && |blocks| <= |more| && items <= others
    ensures Total(Filling(max, sender, blocks, items)) <= Total(Filling(max, sender, more, others))
  {
    FillingSize(max, sender, blocks, items);
    FillingSize(max, sender, more, others);
    GroupsGrow(|blocks|, |more|);
    var rest := others[|items|..];
    assert others == items + rest;
    ItemsSizeAppend(items, rest);
    AlignGrows(ItemsSize(items) + 1, ItemsSize(others) + 1);
  }

  /** The items that are due and not yet sent, in order. */
  function Pending(items: seq<LocalItem>): (p: seq<Item>) {
    if items == [] then []
    else if items[0].due && !items[0].processed then [ToItem(items[0])] + Pending(items[1..])
    else Pending(items[1..])
  }

  function ToItem(i: LocalItem): Item {
    Item(if NormalItemId(i.kind).Some? then NormalItemId(i.kind).value else 0, i.value)
  }

  predicate Sendable(items: seq<LocalItem>) {
    forall k :: 0 <= k < |items| ==> NormalItemId(items[k].kind).Some?
  }

  lemma ShapedSendable(l: Local)
    requires l.Shaped()
    ensures Sendable(l.items)
  {
  }

  function WithItems(b: Build, more: seq<Item>): (r: Build)
    requires |b.chunks| == 1
  {
    b.(chunks := [b.chunks[0].(items := b.chunks[0].items + more)])
  }

  lemma WithOneItem(b: Build, kind: ItemType, value: Text)
    requires |b.chunks| == 1 && NormalItemId(kind).Some? && b.building
    ensures
      var item := Item(NormalItemId(kind).value, value);
      DoAddNormalItem(b, kind, value) == Keep(b, WithItems(b, [item]))
  {
    var item := Item(NormalItemId(kind).value, value);
    assert WithItem(b.chunks, item) == WithItems(b, [item]).chunks;
  }

  /** A pass sent a prefix of what was pending from number `k` on, in order, and left the rest
      pending; it stopped early exactly at the first item that did not fit. */
  ghost predicate Sends(b: Build, items: seq<LocalItem>, k: nat, added: nat, r: SdesFilled)
    requires k <= |items| && |b.chunks| == 1
  {
    var p, m := Pending(items[k..]), r.added - added;
    && |r.items| == |items| && r.items[..k] == items[..k]
    && 0 <= m <= |p| && (r.full <==> m < |p|)
    && r.build == WithItems(b, p[..m]) && Total(r.build) <= b.max
    && Pending(r.items[k..]) == p[m..]
    && (r.full ==> Total(WithItems(b, p[..m + 1])) > b.max)
  }

  lemma NothingAdded(b: Build)
    requires |b.chunks| == 1
    ensures WithItems(b, []) == b
  {
    assert b.chunks[0].items + [] == b.chunks[0].items;
    assert b.chunks == [b.chunks[0]];
  }

  lemma PendingStep(items: seq<LocalItem>, k: nat)
    requires k < |items|
    ensures Pending(items[k..])
      == if items[k].due && !items[k].processed then [ToItem(items[k])] + Pending(items[k + 1..])
         else Pending(items[k + 1..])
  {
  }

  lemma SendsSkip(b: Build, items: seq<LocalItem>, k: nat, added: nat, r: SdesFilled)
    requires k < |items| && |b.chunks| == 1 && (!items[k].due || items[k].processed)
    requires Sends(b, items, k + 1, added, r)
    ensures Sends(b, items, k, added, r)
  {
    PendingStep(items, k);
    PendingStep(r.items, k);
    assert r.items[k] == r.items[..k + 1][k] == items[k];
    assert r.items[..k] == r.items[..k + 1][..k] == items[..k];
  }

  lemma SendsOne(b: Build, items: seq<LocalItem>, k: nat, added: nat, r: SdesFilled)
    requires k < |items| && |b.chunks| == 1 && items[k].due && !items[k].processed
    requires Sends(WithItems(b, [ToItem(items[k])]), items[k := items[k].(processed := true)], k + 1, added + 1, r)
    ensures Sends(b, items, k, added, r)
  {
    var x, rest, m := ToItem(items[k]), Pending(items[k + 1..]), r.added - added - 1;
    PendingMarked(items, k, r.items);
    FirstAndSome(x, rest, m);
    WithItemsTwice(b, [x], rest[..m]);
    if r.full {
      FirstAndSome(x, rest, m + 1);
      WithItemsTwice(b, [x], rest[..m + 1]);
    }
  }

  /** Item number `k` was pending and has been marked. */
  lemma PendingMarked(items: seq<LocalItem>, k: nat, after: seq<LocalItem>)
    requires k < |items| == |after| && items[k].due && !items[k].processed
    requires after[..k + 1] == items[k := items[k].(processed := true)][..k + 1]
    ensures after[..k] == items[..k]
    ensures items[k := items[k].(processed := true)][k + 1..] == items[k + 1..]
    ensures Pending(items[k..]) == [ToItem(items[k])] + Pending(items[k + 1..])
    ensures Pending(after[k..]) == Pending(after[k + 1..])
  {
    var marked := items[k := items[k].(processed := true)];
    PendingStep(items, k);
    PendingStep(after, k);
    assert after[k] == after[..k + 1][k] == marked[k];
    assert after[..k] == after[..k + 1][..k] == marked[..k] == items[..k];
  }

  lemma FirstAndSome(x: Item, rest: seq<Item>, m: nat)
    requires m <= |rest|
    ensures [x] + rest[..m] == ([x] + rest)[..m + 1] && rest[m..] == ([x] + rest)[m + 1..]
  {
  }

  lemma WithItemsTwice(b: Build, x: seq<Item>, y: seq<Item>)
    requires |b.chunks| == 1
    ensures WithItems(WithItems(b, x), y) == WithItems(b, x + y)
  {
    assert (b.chunks[0].items + x) + y == b.chunks[0].items + (x + y);
  }

  /** A pass over the items is stopped if and only if what is pending does not fit as a whole. */
  lemma StoppedIff(max: Size, sender: Sender, blocks: seq<ReportBlock>, cname: Text, items: seq<LocalItem>)
    requires !sender.NoReport? && Sendable(items)
    requires Total(Filling(max, sender, blocks, [Item(1, cname)])) <= max
    ensures
      var b := Filling(max, sender, blocks, [Item(1, cname)]);
      FillItems(b, items, 0, 0).full <==> Total(Filling(max, sender, blocks, [Item(1, cname)] + Pending(items))) > max
  {
    var cn := [Item(1, cname)];
    var b, p := Filling(max, sender, blocks, cn), Pending(items);
    FillItemsSends(b, items, 0, 0);
    assert items[0..] == items;
    var r := FillItems(b, items, 0, 0);
    if r.full {
      var q := p[..r.added + 1];
      FillingGrows(max, sender, blocks, cn + q, blocks, cn + p);
    } else {
      assert p[..|p|] == p;
    }
  }

  lemma SendsNothing(b: Build, items: seq<LocalItem>, k: nat, added: nat, full: bool)
    requires k <= |items| && |b.chunks| == 1 && Total(b) <= b.max
    requires
      if full then k < |items| && items[k].due && !items[k].processed && Total(WithItems(b, [ToItem(items[k])])) > b.max
      else k == |items|
    ensures Sends(b, items, k, added, SdesFilled(b, items, full, added))
  {
    NothingAdded(b);
    if full {
      PendingStep(items, k);
      assert Pending(items[k..])[..1] == [ToItem(items[k])];
    }
  }

  lemma {:induction false} FillItemsSends(b: Build, items: seq<LocalItem>, k: nat, added: nat)
    requires k <= |items| && Sendable(items) && b.building && |b.chunks| == 1 && Total(b) <= b.max
    ensures Sends(b, items, k, added, FillItems(b, items, k, added))
    decreases |items| - k
  {
    if k == |items| {
      SendsNothing(b, items, k, added, false);
    } else if !items[k].due || items[k].processed {
      FillItemsSends(b, items, k + 1, added);
      SendsSkip(b, items, k, added, FillItems(b, items, k, added));
    } else {
      WithOneItem(b, items[k].kind, items[k].value);
      var b' := WithItems(b, [ToItem(items[k])]);
      if Total(b') <= b.max {
        FillItemsSends(b', items[k := items[k].(processed := true)], k + 1, added + 1);
        SendsOne(b, items, k, added, FillItems(b, items, k, added));
      } else {
        SendsNothing(b, items, k, added, true);
      }
    }
  }
}
