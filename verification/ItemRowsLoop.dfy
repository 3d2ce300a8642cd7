/**
 * The loops behind module ItemRows: the two loops of `saveItems` with their list of pending
 * containers and running id, and `loadItems` with the rebuild loop on linked item objects.
 */
module ItemRowsLoop {
  import opened Basics
  import opened ItemCodec
  import opened ItemRoundTrip
  import opened ItemRows

  // ----- saving -----

  /** A container whose children still wait for their rows, with its own id. */
  type ContainerBlock = (Item, nat)

  ghost function Pending(containers: seq<ContainerBlock>): seq<Entry> {
    if containers == [] then []
    else Waiting(KidsOf(containers[0].0), containers[0].1) + Pending(containers[1..])
  }

  lemma {:induction false} PendingLast(containers: seq<ContainerBlock>, block: ContainerBlock)
    ensures Pending(containers + [block]) == Pending(containers) + Waiting(KidsOf(block.0), block.1)
  {
    if containers == [] {
      assert [block][1..] == [];
      assert [] + [block] == [block];
    } else {
      assert (containers + [block])[1..] == containers[1..] + [block];
      PendingLast(containers[1..], block);
    }
  }

  /** Numbering the first entry of a queue whose tail is `q` followed by the pending children. */
  lemma NumberFirst(types: Types, e: Entry, q: seq<Entry>, containers: seq<ContainerBlock>, r: nat)
    ensures Numbered(types, [e] + q + Pending(containers), r)
         == [ToRow(types, e, r + 1)]
            + Numbered(types, q + Pending(if e.1.Box? then containers + [(e.1, r + 1)] else containers), r + 1)
  {
    var all := [e] + q + Pending(containers);
    var kids := Waiting(KidsOf(e.1), r + 1);
    assert all[0] == e && all[1..] == q + Pending(containers);
    assert Next(all, r + 1) == q + Pending(containers) + kids;
    if e.1.Box? {
      PendingLast(containers, (e.1, r + 1));
      assert q + Pending(containers) + kids == q + (Pending(containers) + kids);
    } else {
      assert q + Pending(containers) + kids == q + Pending(containers);
    }
  }

  class RowTable {
    var rows: seq<Row>

    constructor ()
      ensures rows == []
    {
      rows := [];
    }

    method AddRow(types: Types, e: Entry, runningId: nat)
      modifies this
      ensures rows == old(rows) + [ToRow(types, e, runningId)]
    {
      var it := types(e.1.id);
      rows := rows + [Row(e.0, runningId, e.1.id, SubType(it, e.1.own), EncodeAttrs(it, e.1.own))];
    }

    /** `saveItems`: the top-level list first, then the children of one container after another. */
    method SaveItems(types: Types, itemList: seq<Entry>)
      modifies this
      ensures rows == old(rows) + Numbered(types, itemList, FIRST_ID)
    {
      hide Numbered, ToRow;
      var containers: seq<ContainerBlock> := [];
      var runningId: nat := FIRST_ID;
      ghost var goal := old(rows) + Numbered(types, itemList, FIRST_ID);
      assert itemList[0..] + Pending(containers) == itemList;

      for k := 0 to |itemList|
        invariant rows + Numbered(types, itemList[k..] + Pending(containers), runningId) == goal
      {
        var it := itemList[k];
        NumberFirst(types, it, itemList[k + 1..], containers, runningId);
        assert itemList[k..] == [it] + itemList[k + 1..];
        runningId := runningId + 1;
        AddRow(types, it, runningId);
        if it.1.Box? {
          containers := containers + [(it.1, runningId)];
        }
      }
      assert itemList[|itemList|..] + Pending(containers) == Pending(containers);

      var i := 0;
      assert containers[0..] == containers;
      while i < |containers|
        invariant 0 <= i <= |containers|
        invariant rows + Numbered(types, Pending(containers[i..]), runningId) == goal
        decreases QueueSize(Pending(containers[i..])), |containers| - i
      {
        PendingFirst(containers, i);
        containers, runningId := SaveChildren(types, containers, i, runningId);
        i := i + 1;
      }
      NumberedNothing(types, runningId);
    }

    /** The body of the second loop: rows for all children of container `i`. */
    method SaveChildren(types: Types, blocks: seq<ContainerBlock>, i: nat, lastId: nat)
      returns (containers: seq<ContainerBlock>, runningId: nat)
      requires i < |blocks|
      modifies this
      ensures blocks <= containers
      ensures rows + Numbered(types, Pending(containers[i + 1..]), runningId)
           == old(rows) + Numbered(types, Waiting(KidsOf(blocks[i].0), blocks[i].1) + Pending(blocks[i + 1..]), lastId)
      ensures QueueSize(Pending(containers[i + 1..])) + |KidsOf(blocks[i].0)|
           == QueueSize(Waiting(KidsOf(blocks[i].0), blocks[i].1) + Pending(blocks[i + 1..]))
      ensures KidsOf(blocks[i].0) == [] ==> containers == blocks
    {
      hide Numbered, ToRow, Pending, QueueSize;
      containers, runningId := blocks, lastId;
      var items, parentId := KidsOf(blocks[i].0), blocks[i].1;
      ghost var queue := Waiting(items, parentId) + Pending(blocks[i + 1..]);
      assert items[0..] == items;
      for j := 0 to |items|
        invariant blocks <= containers && (j == 0 ==> containers == blocks)
        invariant rows + Numbered(types, Waiting(items[j..], parentId) + Pending(containers[i + 1..]), runningId)
               == old(rows) + Numbered(types, queue, lastId)
        invariant QueueSize(Waiting(items[j..], parentId) + Pending(containers[i + 1..])) + j == QueueSize(queue)
      {
        var item := items[j];
        ghost var later := Waiting(items[j + 1..], parentId);
        assert Waiting(items[j..], parentId) == [(parentId, item)] + later;
        NumberFirst(types, (parentId, item), later, containers[i + 1..], runningId);
        NumberedSize((parentId, item), later, containers[i + 1..], runningId);
        runningId := runningId + 1;
        if item.Box? {
          assert (containers + [(item, runningId)])[i + 1..] == containers[i + 1..] + [(item, runningId)];
          containers := containers + [(item, runningId)];
        }
        AddRow(types, (parentId, item), runningId);
      }
      assert Waiting(items[|items|..], parentId) + Pending(containers[i + 1..]) == Pending(containers[i + 1..]);
    }
  }

  lemma PendingFirst(containers: seq<ContainerBlock>, i: nat)
    requires i < |containers|
    ensures Pending(containers[i..])
         == Waiting(KidsOf(containers[i].0), containers[i].1) + Pending(containers[i + 1..])
  {
    assert containers[i..][1..] == containers[i + 1..];
  }

  lemma NumberedNothing(types: Types, r: nat)
    ensures Numbered(types, [], r) == []
  {
  }

  lemma NumberedSize(e: Entry, q: seq<Entry>, containers: seq<ContainerBlock>, r: nat)
    ensures QueueSize([e] + q + Pending(containers))
         == 1 + QueueSize(q + Pending(if e.1.Box? then containers + [(e.1, r + 1)] else containers))
  {
    var rest := q + Pending(containers);
    assert [e] + q + Pending(containers) == [e] + rest;
    QueueSizeSplit([e], rest);
    assert [e][1..] == [];
    if e.1.Box? {
      var kids := Waiting(KidsOf(e.1), r + 1);
      PendingLast(containers, (e.1, r + 1));
      assert q + (Pending(containers) + kids) == rest + kids;
      QueueSizeSplit(rest, kids);
      WaitingSize(KidsOf(e.1), r + 1);
    }
  }

  // ----- loading -----

  /** An item object. `isBox` says whether it is a container. */
  class ItemNode {
    const id: nat
    const own: Fields
    const isBox: bool
    var children: seq<ItemNode>
    var totalWeight: nat

    constructor (id: nat, own: Fields, isBox: bool)
      ensures this.id == id && this.own == own && this.isBox == isBox && children == [] && totalWeight == 0
    {
      this.id, this.own, this.isBox := id, own, isBox;
      children, totalWeight := [], 0;
    }

    /** `getWeight` of the object. */
    function GetWeight(types: Types): nat
      reads this
    {
      var weight := OwnWeight(types, Plain(id, own));
      if isBox then (weight + totalWeight) % TWO_TO_THE_32 else weight
    }

    /** `internalAddThing`: push front; the receiver has no parent yet whose weight would change. */
    method InternalAddThing(types: Types, item: ItemNode)
      modifies this
      ensures children == [item] + old(children)
      ensures totalWeight == (old(totalWeight) + old(item.GetWeight(types))) % TWO_TO_THE_32
    {
      children, totalWeight := [item] + children, (totalWeight + item.GetWeight(types)) % TWO_TO_THE_32;
    }
  }

  /** The object `o` is the item `t`, linked entirely inside `region`. */
  ghost predicate Shows(types: Types, o: ItemNode, t: Item, region: set<ItemNode>)
    reads region
    decreases t
  {
    && o in region
    && o.id == t.id && o.own == t.own && o.isBox == t.Box?
    && (t.Box? ==>
          && o.totalWeight == t.totalWeight
          && |o.children| == |t.items|
          && forall j :: 0 <= j < |t.items| ==> Shows(types, o.children[j], t.items[j], region))
  }

  /** The object `o` holds the children `ts` and has cached their weight. */
  ghost predicate Holds(types: Types, o: ItemNode, ts: seq<Item>, region: set<ItemNode>)
    reads o, region
  {
    && o.totalWeight == SumWeight(types, ts) % TWO_TO_THE_32
    && |o.children| == |ts|
    && forall j :: 0 <= j < |ts| ==> Shows(types, o.children[j], ts[j], region)
  }

  lemma {:induction false} ShowsInLarger(types: Types, o: ItemNode, t: Item, region: set<ItemNode>,
                                         larger: set<ItemNode>)
    requires Shows(types, o, t, region) && region <= larger
    ensures Shows(types, o, t, larger)
    decreases t
  {
    if t.Box? {
      forall j | 0 <= j < |t.items| ensures Shows(types, o.children[j], t.items[j], larger) {
        ShowsInLarger(types, o.children[j], t.items[j], region, larger);
      }
    }
  }

  lemma HoldsInLarger(types: Types, o: ItemNode, ts: seq<Item>, region: set<ItemNode>, larger: set<ItemNode>)
    requires Holds(types, o, ts, region) && region <= larger
    ensures Holds(types, o, ts, larger)
  {
    forall j | 0 <= j < |ts| ensures Shows(types, o.children[j], ts[j], larger) {
      ShowsInLarger(types, o.children[j], ts[j], region, larger);
    }
  }

  lemma ShownWeight(types: Types, o: ItemNode, t: Item, region: set<ItemNode>)
    requires Shows(types, o, t, region)
    ensures o.GetWeight(types) == Weight(types, t)
  {
    OwnWeightByParts(types, t);
  }

  lemma OwnWeightByParts(types: Types, t: Item)
    ensures OwnWeight(types, Plain(t.id, t.own)) == OwnWeight(types, t)
  {
  }

  /** One entry of the item map: the object and its parent's id. */
  type Mapped = map<nat, (ItemNode, nat)>

  /** Every row's type can be created, ids are unique and every parent comes first. */
  predicate Loadable(types: Types, rows: seq<Row>) {
    && (forall i :: 0 <= i < |rows| ==>
          && CreateItem(types, rows[i].itemtype, rows[i].count).Some?
          && rows[i].sid >= MAX_DEPOTS && rows[i].pid < rows[i].sid)
    && (forall i, j :: 0 <= i < j < |rows| ==> rows[i].sid < rows[j].sid)
  }

  /** The blank object of a row. */
  ghost predicate Blank(types: Types, o: ItemNode, row: Row)
    requires CreateItem(types, row.itemtype, row.count).Some?
    reads o
  {
    var made := CreateItem(types, row.itemtype, row.count).value;
    && o.id == made.id && o.isBox == made.Box? && o.own == RowOwn(types, row, made)
    && o.children == [] && o.totalWeight == 0
  }

  /** The item map and the objects of the rows, in the order of the rows. */
  ghost predicate Maps(itemMap: Mapped, rows: seq<Row>, objs: seq<ItemNode>) {
    && |objs| == |rows|
    && (forall i :: 0 <= i < |rows| ==> rows[i].sid in itemMap && itemMap[rows[i].sid] == (objs[i], rows[i].pid))
    && (forall sid :: sid in itemMap ==> exists i :: 0 <= i < |rows| && rows[i].sid == sid)
    && (forall i, j :: 0 <= i < j < |objs| ==> objs[i] != objs[j])
  }

  /** `loadItems`. */
  method LoadItems(types: Types, rows: seq<Row>) returns (itemMap: Mapped, ghost objs: seq<ItemNode>)
    requires Loadable(types, rows)
    ensures Maps(itemMap, rows, objs)
    ensures forall i :: 0 <= i < |rows| ==> fresh(objs[i]) && Blank(types, objs[i], rows[i])
  {
    hide CreateItem, RowOwn;
    itemMap, objs := map[], [];
    for k := 0 to |rows|
      invariant Maps(itemMap, rows[..k], objs)
      invariant forall i :: 0 <= i < k ==> fresh(objs[i]) && Blank(types, objs[i], rows[i])
    {
      var row := rows[k];
      var made := CreateItem(types, row.itemtype, row.count).value;
      var item := new ItemNode(made.id, RowOwn(types, row, made), made.Box?);
      itemMap, objs := itemMap[row.sid := (item, row.pid)], objs + [item];
      assert rows[..k + 1] == rows[..k] + [row];
    }
    assert rows[..|rows|] == rows;
  }

  /** The objects that the reverse loop has passed once it stands at row `k`. */
  ghost function Passed(objs: seq<ItemNode>, k: nat): set<ItemNode>
    requires k <= |objs|
  {
    set o | o in objs[k..]
  }

  /** What holds when the reverse loop stands at row `k`: every place that may still receive
      items holds exactly what the rows from `k` on have linked to it. */
  ghost predicate Progress(types: Types, rows: seq<Row>, objs: seq<ItemNode>, chests: seq<ItemNode>, k: nat,
                           region: set<ItemNode>)
    requires k <= |rows| == |objs| && |chests| == MAX_DEPOTS
    reads objs, chests, region
  {
    && (forall p :: 0 <= p < MAX_DEPOTS ==> Holds(types, chests[p], Linked(types, rows[k..], p), region))
    && (forall i :: 0 <= i < k && objs[i].isBox ==>
          Holds(types, objs[i], Linked(types, rows[k..], rows[i].sid), region))
  }

  /** No object stands in two places. */
  ghost predicate Separate(objs: seq<ItemNode>, chests: seq<ItemNode>) {
    && (forall i, j :: 0 <= i < j < |objs| ==> objs[i] != objs[j])
    && (forall i, j :: 0 <= i < j < |chests| ==> chests[i] != chests[j])
    && (forall i, j :: 0 <= i < |objs| && 0 <= j < |chests| ==> objs[i] != chests[j])
  }

  /** The attributes and identity of every object are those of its row. */
  ghost predicate Typed(types: Types, objs: seq<ItemNode>, rows: seq<Row>) {
    && |objs| == |rows|
    && forall i :: 0 <= i < |rows| ==>
         var made := CreateItem(types, rows[i].itemtype, rows[i].count);
         && made.Some?
         && objs[i].id == made.value.id && objs[i].isBox == made.value.Box?
         && objs[i].own == RowOwn(types, rows[i], made.value)
  }

  lemma LinkedAt(types: Types, rows: seq<Row>, k: nat, p: nat)
    requires k < |rows| && Rebuilt(types, rows[k], Linked(types, rows[k + 1..], rows[k].sid)).Some?
    ensures Linked(types, rows[k..], p)
         == if rows[k].pid != p then Linked(types, rows[k + 1..], p)
            else
              [Rebuilt(types, rows[k], Linked(types, rows[k + 1..], rows[k].sid)).value]
              + Linked(types, rows[k + 1..], p)
  {
    assert rows[k..][1..] == rows[k + 1..];
  }

  /** The object of row `k` is complete when the loop reaches it. */
  lemma CompleteAt(types: Types, rows: seq<Row>, objs: seq<ItemNode>, k: nat, region: set<ItemNode>)
    requires Typed(types, objs, rows) && k < |rows|
    requires objs[k].isBox ==> Holds(types, objs[k], Linked(types, rows[k + 1..], rows[k].sid), region)
    ensures var t := Rebuilt(types, rows[k], Linked(types, rows[k + 1..], rows[k].sid));
            t.Some? && Shows(types, objs[k], t.value, region + {objs[k]})
  {
    var kids := Linked(types, rows[k + 1..], rows[k].sid);
    var larger := region + {objs[k]};
    if objs[k].isBox {
      HoldsInLarger(types, objs[k], kids, region, larger);
    }
  }

  lemma HoldsOneMore(types: Types, o: ItemNode, first: ItemNode, t: Item, ts: seq<Item>, region: set<ItemNode>)
    requires o.children != [] && o.children[0] == first && Shows(types, first, t, region)
    requires |o.children| == |ts| + 1 && forall j :: 0 <= j < |ts| ==> Shows(types, o.children[j + 1], ts[j], region)
    requires o.totalWeight == (SumWeight(types, ts) % TWO_TO_THE_32 + Weight(types, t)) % TWO_TO_THE_32
    ensures Holds(types, o, [t] + ts, region)
  {
    hide Shows, Weight;
    var all := [t] + ts;
    assert all[1..] == ts;
    WrapTwice(SumWeight(types, ts), Weight(types, t));
    forall j | 0 <= j < |all| ensures Shows(types, o.children[j], all[j], region) {
      if j > 0 { assert Shows(types, o.children[j - 1 + 1], ts[j - 1], region); }
    }
  }

  /** Linking the object of one row into the place it belongs to. */
  method LinkInto(types: Types, place: ItemNode, item: ItemNode, ghost t: Item, ghost ts: seq<Item>,
                  ghost region: set<ItemNode>)
    requires Shows(types, item, t, region) && Holds(types, place, ts, region) && place !in region
    modifies place
    ensures Holds(types, place, [t] + ts, region)
  {
    ShownWeight(types, item, t, region);
    ghost var before := place.children;
    place.InternalAddThing(types, item);
    forall j | 0 <= j < |ts| ensures Shows(types, place.children[j + 1], ts[j], region) {
      assert place.children[j + 1] == before[j];
    }
    HoldsOneMore(types, place, item, t, ts, region);
  }

  function Extended(here: bool, t: Item, ts: seq<Item>): seq<Item> {
    if here then [t] + ts else ts
  }

  /** The state after row `k` was linked. */
  lemma ProgressAfter(types: Types, rows: seq<Row>, objs: seq<ItemNode>, chests: seq<ItemNode>, k: nat,
                      region: set<ItemNode>)
    requires k < |rows| == |objs| && |chests| == MAX_DEPOTS
    requires Rebuilt(types, rows[k], Linked(types, rows[k + 1..], rows[k].sid)).Some?
    requires var t := Rebuilt(types, rows[k], Linked(types, rows[k + 1..], rows[k].sid)).value;
             && (forall p :: 0 <= p < MAX_DEPOTS ==>
                   Holds(types, chests[p], Extended(rows[k].pid == p, t, Linked(types, rows[k + 1..], p)), region))
             && (forall i :: 0 <= i < k && objs[i].isBox ==>
                   Holds(types, objs[i],
                         Extended(rows[k].pid == rows[i].sid, t, Linked(types, rows[k + 1..], rows[i].sid)), region))
    ensures Progress(types, rows, objs, chests, k, region)
  {
    hide Holds, Rebuilt;
    forall p: nat ensures Linked(types, rows[k..], p)
      == Extended(rows[k].pid == p, Rebuilt(types, rows[k], Linked(types, rows[k + 1..], rows[k].sid)).value,
                  Linked(types, rows[k + 1..], p))
    {
      LinkedAt(types, rows, k, p);
    }
  }

  lemma ProgressInLarger(types: Types, rows: seq<Row>, objs: seq<ItemNode>, chests: seq<ItemNode>, k: nat,
                         region: set<ItemNode>, larger: set<ItemNode>)
    requires k < |rows| == |objs| && |chests| == MAX_DEPOTS && region <= larger
    requires Progress(types, rows, objs, chests, k + 1, region)
    ensures Ready(types, rows, objs, chests, k, larger)
  {
    hide Linked;
    forall p | 0 <= p < MAX_DEPOTS ensures Holds(types, chests[p], Linked(types, rows[k + 1..], p), larger) {
      HoldsInLarger(types, chests[p], Linked(types, rows[k + 1..], p), region, larger);
    }
    forall i | 0 <= i < k && objs[i].isBox
      ensures Holds(types, objs[i], Linked(types, rows[k + 1..], rows[i].sid), larger)
    {
      HoldsInLarger(types, objs[i], Linked(types, rows[k + 1..], rows[i].sid), region, larger);
    }
  }

  /** Every place that may still receive items holds what the rows after row `k` linked to it. */
  ghost predicate Ready(types: Types, rows: seq<Row>, objs: seq<ItemNode>, chests: seq<ItemNode>, k: nat,
                        region: set<ItemNode>)
    requires k < |rows| == |objs| && |chests| == MAX_DEPOTS
    reads objs, chests, region
  {
    && (forall p :: 0 <= p < MAX_DEPOTS ==> Holds(types, chests[p], Linked(types, rows[k + 1..], p), region))
    && (forall i ::
        0 <= i < k && objs[i].isBox ==> Holds(types, objs[i], Linked(types, rows[k + 1..], rows[i].sid), region))
  }

  /** `place` is where the items with parent id `pid` belong. */
  ghost predicate IsPlaceOf(place: ItemNode, pid: nat, rows: seq<Row>, objs: seq<ItemNode>, chests: seq<ItemNode>,
                            k: nat)
    requires k < |rows| == |objs| && |chests| == MAX_DEPOTS
  {
    && (forall p :: 0 <= p < MAX_DEPOTS ==> (chests[p] == place <==> p == pid))
    && (forall i :: 0 <= i < k && objs[i].isBox ==> (objs[i] == place <==> rows[i].sid == pid))
  }

  method LinkTo(types: Types, place: ItemNode, item: ItemNode, ghost t: Item, ghost rows: seq<Row>,
                ghost objs: seq<ItemNode>,
                ghost chests: seq<ItemNode>, ghost k: nat, ghost region: set<ItemNode>)
    requires k < |rows| == |objs| && |chests| == MAX_DEPOTS
    requires Ready(types, rows, objs, chests, k, region) && Shows(types, item, t, region)
    requires IsPlaceOf(place, rows[k].pid, rows, objs, chests, k) && place !in region
    requires Rebuilt(types, rows[k], Linked(types, rows[k + 1..], rows[k].sid)) == Some(t)
    requires Holds(types, place, Linked(types, rows[k + 1..], rows[k].pid), region)
    modifies place
    ensures Progress(types, rows, objs, chests, k, region)
  {
    hide Linked, Rebuilt, Weight, SumWeight, Shows, Holds;
    LinkInto(types, place, item, t, Linked(types, rows[k + 1..], rows[k].pid), region);
    ProgressAfter(types, rows, objs, chests, k, region);
  }

  lemma NothingLinked(types: Types, rows: seq<Row>, objs: seq<ItemNode>, chests: seq<ItemNode>, k: nat,
                      region: set<ItemNode>)
    requires k < |rows| == |objs| && |chests| == MAX_DEPOTS && rows[k].pid >= MAX_DEPOTS
    requires Rebuilt(types, rows[k], Linked(types, rows[k + 1..], rows[k].sid)).Some?
    requires Ready(types, rows, objs, chests, k, region)
    requires forall i :: 0 <= i < k && objs[i].isBox ==> rows[i].sid != rows[k].pid
    ensures Progress(types, rows, objs, chests, k, region)
  {
    hide Linked, Rebuilt, Shows, Holds;
    ProgressAfter(types, rows, objs, chests, k, region);
  }

  lemma ChestIsPlace(types: Types, rows: seq<Row>, objs: seq<ItemNode>, chests: seq<ItemNode>, k: nat, p: nat)
    requires Loadable(types, rows) && Separate(objs, chests)
    requires k < |rows| == |objs| && |chests| == MAX_DEPOTS && p < MAX_DEPOTS
    ensures IsPlaceOf(chests[p], p, rows, objs, chests, k) && chests[p] !in Passed(objs, k)
  {
  }

  lemma ParentIsPlace(types: Types, rows: seq<Row>, objs: seq<ItemNode>, chests: seq<ItemNode>, k: nat, i: nat)
    requires Loadable(types, rows) && Separate(objs, chests)
    requires i < k < |rows| == |objs| && |chests| == MAX_DEPOTS && objs[i].isBox
    ensures IsPlaceOf(objs[i], rows[i].sid, rows, objs, chests, k) && objs[i] !in Passed(objs, k)
  {
  }

  lemma PassedStep(objs: seq<ItemNode>, k: nat)
    requires k < |objs|
    ensures Passed(objs, k) == Passed(objs, k + 1) + {objs[k]}
  {
    assert objs[k..] == [objs[k]] + objs[k + 1..];
  }

  /** The object of row `k` is finished, and all places are ready for it. */
  lemma ReadyToLink(types: Types, rows: seq<Row>, objs: seq<ItemNode>, chests: seq<ItemNode>, k: nat) returns (t: Item)
    requires k < |rows| && |chests| == MAX_DEPOTS && Typed(types, objs, rows) && Loadable(types, rows)
    requires Progress(types, rows, objs, chests, k + 1, Passed(objs, k + 1))
    ensures Rebuilt(types, rows[k], Linked(types, rows[k + 1..], rows[k].sid)) == Some(t)
    ensures Shows(types, objs[k], t, Passed(objs, k))
    ensures Ready(types, rows, objs, chests, k, Passed(objs, k))
  {
    var region := Passed(objs, k + 1);
    CompleteAt(types, rows, objs, k, region);
    PassedStep(objs, k);
    t := Rebuilt(types, rows[k], Linked(types, rows[k + 1..], rows[k].sid)).value;
    ProgressInLarger(types, rows, objs, chests, k, region, Passed(objs, k));
  }

  lemma ParentRow(types: Types, rows: seq<Row>, itemMap: Mapped, objs: seq<ItemNode>, k: nat) returns (i: nat)
    requires Loadable(types, rows) && Maps(itemMap, rows, objs) && k < |rows| && rows[k].pid in itemMap
    ensures i < k && rows[i].sid == rows[k].pid && itemMap[rows[k].pid].0 == objs[i]
  {
    i :| 0 <= i < |rows| && rows[i].sid == rows[k].pid;
  }

  /** One turn of the rebuild loop: the object of row `k` goes to a depot chest, to the
      container with its parent's id, or nowhere. */
  method LinkRow(types: Types, rows: seq<Row>, itemMap: Mapped, ghost objs: seq<ItemNode>, chests: seq<ItemNode>,
                 k: nat)
    requires Loadable(types, rows) && Maps(itemMap, rows, objs) && Separate(objs, chests) && Typed(types, objs, rows)
    requires k < |rows| && |chests| == MAX_DEPOTS
    requires Progress(types, rows, objs, chests, k + 1, Passed(objs, k + 1))
    modifies objs, chests
    ensures Progress(types, rows, objs, chests, k, Passed(objs, k))
  {
    ghost var t := ReadyToLink(types, rows, objs, chests, k);
    var item, pid := itemMap[rows[k].sid].0, itemMap[rows[k].sid].1;
    if pid < MAX_DEPOTS {
      ChestIsPlace(types, rows, objs, chests, k, pid);
      hide Linked, Rebuilt, Shows, Holds, Typed, Passed, Progress, IsPlaceOf, Separate, Loadable, Maps;
      LinkTo(types, chests[pid], item, t, rows, objs, chests, k, Passed(objs, k));
    } else if pid in itemMap && itemMap[pid].0.isBox {
      ghost var i := ParentRow(types, rows, itemMap, objs, k);
      ParentIsPlace(types, rows, objs, chests, k, i);
      hide Linked, Rebuilt, Shows, Holds, Typed, Passed, Progress, IsPlaceOf, Separate, Loadable, Maps;
      LinkTo(types, itemMap[pid].0, item, t, rows, objs, chests, k, Passed(objs, k));
    } else {
      hide Linked, Rebuilt, Shows, Holds, Typed, Passed, Progress, IsPlaceOf, Separate;
      NothingLinked(types, rows, objs, chests, k, Passed(objs, k));
    }
  }

  /** The rebuild loop of `loadPlayer` over the item map in descending order of id. */
  method Rebuild(types: Types, rows: seq<Row>, itemMap: Mapped, ghost objs: seq<ItemNode>, chests: seq<ItemNode>)
    requires Loadable(types, rows) && Maps(itemMap, rows, objs) && Separate(objs, chests)
    requires forall i :: 0 <= i < |rows| ==> Blank(types, objs[i], rows[i])
    requires |chests| == MAX_DEPOTS
    requires forall p :: 0 <= p < MAX_DEPOTS ==> chests[p].children == [] && chests[p].totalWeight == 0
    modifies objs, chests
    ensures forall p :: 0 <= p < MAX_DEPOTS ==> Holds(types, chests[p], Linked(types, rows, p), Passed(objs, 0))
  {
    hide Linked, Rebuilt;
    var k := |rows|;
    StartsEmpty(types, rows, objs, chests);
    while k > 0
      invariant 0 <= k <= |rows|
      invariant Progress(types, rows, objs, chests, k, Passed(objs, k))
    {
      k := k - 1;
      LinkRow(types, rows, itemMap, objs, chests, k);
    }
    assert rows[0..] == rows;
  }

  lemma StartsEmpty(types: Types, rows: seq<Row>, objs: seq<ItemNode>, chests: seq<ItemNode>)
    requires |rows| == |objs| && |chests| == MAX_DEPOTS
    requires forall i :: 0 <= i < |objs| ==> objs[i].children == [] && objs[i].totalWeight == 0
    requires forall p :: 0 <= p < MAX_DEPOTS ==> chests[p].children == [] && chests[p].totalWeight == 0
    ensures Progress(types, rows, objs, chests, |rows|, Passed(objs, |rows|))
  {
    assert rows[|rows|..] == [];
  }

  method NewChests(ghost objs: seq<ItemNode>) returns (chests: seq<ItemNode>)
    requires forall i, j :: 0 <= i < j < |objs| ==> objs[i] != objs[j]
    ensures |chests| == MAX_DEPOTS && Separate(objs, chests)
    ensures forall p ::
      0 <= p < MAX_DEPOTS ==> fresh(chests[p]) && chests[p].children == [] && chests[p].totalWeight == 0
  {
    chests := [];
    for p := 0 to MAX_DEPOTS
      invariant |chests| == p && Separate(objs, chests)
      invariant forall i :: 0 <= i < p ==> fresh(chests[i]) && chests[i].children == [] && chests[i].totalWeight == 0
    {
      var chest := new ItemNode(0, Fields(1, map[], None), true);
      chests := chests + [chest];
    }
  }

  /** Saving a forest, reading the rows back and rebuilding: every depot chest holds the
      items it had, complete and in order, and caches their weight. */
  method SaveThenLoad(types: Types, forest: seq<Entry>) returns (chests: seq<ItemNode>, ghost region: set<ItemNode>)
    requires forall i :: 0 <= i < |forest| ==> forest[i].0 < MAX_DEPOTS && Savable(types, forest[i].1)
    ensures |chests| == MAX_DEPOTS
    ensures forall p ::
      0 <= p < MAX_DEPOTS ==> Holds(types, chests[p], NormalAll(types, ItemsOf(forest, p), true), region)
  {
    hide Numbered, Linked, Savable, ItemsOf, NormalAll, Holds;
    var table := new RowTable();
    table.SaveItems(types, forest);
    var rows := table.rows;
    assert rows == Numbered(types, forest, FIRST_ID);
    NumberedIsLoadable(types, forest);
    var itemMap, objs := LoadItems(types, rows);
    chests := NewChests(objs);
    Rebuild(types, rows, itemMap, objs, chests);
    region := Passed(objs, 0);
    forall p | 0 <= p < MAX_DEPOTS ensures Holds(types, chests[p], NormalAll(types, ItemsOf(forest, p), true), region) {
      RowsRoundTrip(types, forest, p);
    }
  }

  /** Only types that exist are saved, so every row can be loaded. */
  lemma {:induction false} NumberedTypes(types: Types, q: seq<Entry>, r: nat)
    requires SavableAll(types, q)
    ensures forall i :: 0 <= i < |Numbered(types, q, r)| ==>
      CreateItem(types, Numbered(types, q, r)[i].itemtype, Numbered(types, q, r)[i].count).Some?
    decreases QueueSize(q)
  {
    if q != [] {
      assert Savable(types, q[0].1);
      SavableNext(types, q, r + 1);
      NumberedTypes(types, Next(q, r + 1), r + 1);
    }
  }

  lemma NumberedIsLoadable(types: Types, forest: seq<Entry>)
    requires forall i :: 0 <= i < |forest| ==> forest[i].0 < MAX_DEPOTS && Savable(types, forest[i].1)
    ensures Loadable(types, Numbered(types, forest, FIRST_ID))
  {
    NumberedIsWellNumbered(types, forest, FIRST_ID);
    NumberedTypes(types, forest, FIRST_ID);
  }
}
