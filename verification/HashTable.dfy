/** RTPHashTable: nodes that are at once on the list of their hash bucket and on one list of all
    nodes, and a cursor. It behaves as a duplicate-free sequence in the order of insertion. */
module HashTable {
  datatype Status = Ok | NoCurrentElement | InvalidHashIndex | ElementNotFound | ElementAlreadyExists

  class HashElement<E> {
    const hashindex: nat
    const element: E
    var hashprev: HashElement?<E>
    var hashnext: HashElement?<E>
    var listprev: HashElement?<E>
    var listnext: HashElement?<E>

    constructor (e: E, index: nat)
      ensures element == e && hashindex == index
      ensures hashprev == null && hashnext == null && listprev == null && listnext == null
    {
      element, hashindex := e, index;
      hashprev, hashnext, listprev, listnext := null, null, null, null;
    }
  }

  // ----- where the nodes are -----

  /** The nodes of a table: as a set, in the order of the list, by bucket, and the place of each. */
  datatype Shape<E> = Shape(
    all: set<HashElement<E>>, nodes: seq<HashElement<E>>, place: map<HashElement<E>, nat>,
    buckets: seq<seq<HashElement<E>>>, hashplace: map<HashElement<E>, nat>)

  /** The node at a position, or null beyond either end. */
  ghost function At<E>(s: seq<HashElement<E>>, i: int): HashElement?<E> {
    if 0 <= i < |s| then s[i] else null
  }

  /** Each node of `s` is one of `r` and is noted at its position, so no node is there twice. */
  ghost predicate Noted<E>(s: seq<HashElement<E>>, r: set<HashElement<E>>, place: map<HashElement<E>, nat>) {
    forall i {:trigger s[i]} :: 0 <= i < |s| ==> s[i] in r && s[i] in place && place[s[i]] == i
  }

  ghost predicate Placed<E>(n: HashElement<E>, s: seq<HashElement<E>>, place: map<HashElement<E>, nat>) {
    n in place && place[n] < |s| && s[place[n]] == n
  }

  ghost predicate SameIndex<E>(s: seq<HashElement<E>>, b: nat) {
    forall i {:trigger s[i]} :: 0 <= i < |s| ==> s[i].hashindex == b
  }

  /** The buckets partition exactly the nodes of the list: every node is once on the list and once
      in the bucket of its index, and there are no others. */
  ghost predicate Sound<E>(h: Shape<E>, size: nat) {
    && Noted(h.nodes, h.all, h.place)
    && (forall n {:trigger n in h.all} :: n in h.all ==> Placed(n, h.nodes, h.place))
    && |h.buckets| == size
    && (forall b {:trigger h.buckets[b]} :: 0 <= b < size ==>
      Noted(h.buckets[b], h.all, h.hashplace) && SameIndex(h.buckets[b], b))
    && (forall n {:trigger n in h.all} :: n in h.all ==>
      n.hashindex < size && Placed(n, h.buckets[n.hashindex], h.hashplace))
  }

  function Elements<E>(s: seq<HashElement<E>>): (r: seq<E>)
    ensures |r| == |s| && forall i {:trigger r[i]} :: 0 <= i < |s| ==> r[i] == s[i].element
  {
    if s == [] then [] else Elements(s[..|s| - 1]) + [s[|s| - 1].element]
  }

  ghost predicate NoDuplicates<E>(s: seq<E>) {
    forall i, j :: 0 <= i < j < |s| ==> s[i] != s[j]
  }

  ghost predicate Indexed<E>(s: seq<HashElement<E>>, getindex: E -> nat) {
    forall i {:trigger s[i]} :: 0 <= i < |s| ==> s[i].hashindex == getindex(s[i].element)
  }

  // ----- adding a node -----

  ghost function Added<E>(h: Shape<E>, n: HashElement<E>): Shape<E>
    requires n.hashindex < |h.buckets|
  {
    var b := n.hashindex;
    Shape(h.all + {n}, h.nodes + [n], h.place[n := |h.nodes|], h.buckets[b := [n] + h.buckets[b]],
      (map x | x in h.hashplace :: if x.hashindex == b then h.hashplace[x] + 1 else h.hashplace[x])[n := 0])
  }

  lemma AddedSound<E>(h: Shape<E>, n: HashElement<E>, size: nat)
    requires Sound(h, size) && n !in h.all && n.hashindex < size
    ensures Sound(Added(h, n), size)
  {
    var h', b := Added(h, n), n.hashindex;
    var s := h.buckets[b];
    assert h'.buckets[b] == [n] + s;
    forall i {:trigger h'.buckets[b][i]} | 0 <= i < |s| + 1
      ensures h'.buckets[b][i] == (if i == 0 then n else s[i - 1])
    {
    }
    forall c {:trigger h'.buckets[c]} | 0 <= c < size
      ensures Noted(h'.buckets[c], h'.all, h'.hashplace) && SameIndex(h'.buckets[c], c)
    {
      assert Noted(h.buckets[c], h.all, h.hashplace) && SameIndex(h.buckets[c], c);
    }
    forall x {:trigger x in h'.all} | x in h'.all
      ensures Placed(x, h'.nodes, h'.place) && Placed(x, h'.buckets[x.hashindex], h'.hashplace)
    {
      if x != n {
        assert x in h.all && Placed(x, h.buckets[x.hashindex], h.hashplace);
      }
    }
  }

  lemma OneMore<T>(s: set<T>, x: T)
    requires x !in s
    ensures (s + {x}) - s == {x}
  {
  }

  /** One more node at the end, with an element that is new. */
  lemma NodesLonger<E>(s: seq<HashElement<E>>, n: HashElement<E>, getindex: E -> nat)
    requires NoDuplicates(Elements(s)) && n.element !in Elements(s)
    requires Indexed(s, getindex) && n.hashindex == getindex(n.element)
    ensures Elements(s + [n]) == Elements(s) + [n.element]
    ensures NoDuplicates(Elements(s + [n])) && Indexed(s + [n], getindex)
  {
    assert (s + [n])[..|s|] == s;
  }

  // ----- removing a node -----

  function Without<T>(s: seq<T>, i: nat): (r: seq<T>)
    requires i < |s|
    ensures |r| == |s| - 1
    ensures forall j {:trigger r[j]} :: 0 <= j < |r| ==> r[j] == if j < i then s[j] else s[j + 1]
  {
    seq(|s| - 1, j requires 0 <= j < |s| - 1 => if j < i then s[j] else s[j + 1])
  }

  /** The places without node number `k` of `s`: the nodes after it move down. */
  ghost function MovedDown<E>(place: map<HashElement<E>, nat>, s: seq<HashElement<E>>,
      k: nat): (p: map<HashElement<E>, nat>)
    requires k < |s|
  {
    map n | n in place && n != s[k] :: if k < place[n] < |s| && s[place[n]] == n then place[n] - 1 else place[n]
  }

  lemma NotedWithout<E>(s: seq<HashElement<E>>, k: nat, r: set<HashElement<E>>, place: map<HashElement<E>, nat>)
    requires k < |s| && Noted(s, r, place)
    ensures Noted(Without(s, k), r - {s[k]}, MovedDown(place, s, k))
  {
  }

  lemma PlacedWithout<E>(s: seq<HashElement<E>>, k: nat, place: map<HashElement<E>, nat>, x: HashElement<E>)
    requires k < |s| && Placed(x, s, place) && x != s[k]
    ensures Placed(x, Without(s, k), MovedDown(place, s, k))
  {
  }

  /** A sequence that has no node in common with `s` is not affected. */
  lemma NotedElsewhere<E>(s: seq<HashElement<E>>, k: nat, r: set<HashElement<E>>, place: map<HashElement<E>, nat>,
      t: seq<HashElement<E>>)
    requires k < |s| && Noted(t, r, place) && forall i, j :: 0 <= i < |s| && 0 <= j < |t| ==> s[i] != t[j]
    ensures Noted(t, r - {s[k]}, MovedDown(place, s, k))
  {
  }

  ghost function Removed<E>(h: Shape<E>, n: HashElement<E>): Shape<E>
    requires n.hashindex < |h.buckets| && Placed(n, h.nodes, h.place) && Placed(n, h.buckets[n.hashindex], h.hashplace)
  {
    var b, p := n.hashindex, h.place[n];
    var s, k := h.buckets[b], h.hashplace[n];
    Shape(h.all - {n}, Without(h.nodes, p), MovedDown(h.place, h.nodes, p), h.buckets[b := Without(s, k)],
      MovedDown(h.hashplace, s, k))
  }

  lemma RemovedSound<E>(h: Shape<E>, n: HashElement<E>, size: nat)
    requires Sound(h, size) && n in h.all
    ensures Sound(Removed(h, n), size)
  {
    var h', b := Removed(h, n), n.hashindex;
    var s, k := h.buckets[b], h.hashplace[n];
    NotedWithout(h.nodes, h.place[n], h.all, h.place);
    forall c {:trigger h'.buckets[c]} | 0 <= c < size
      ensures Noted(h'.buckets[c], h'.all, h'.hashplace) && SameIndex(h'.buckets[c], c)
    {
      var t := h.buckets[c];
      assert Noted(t, h.all, h.hashplace) && SameIndex(t, c) && SameIndex(s, b);
      if c == b {
        NotedWithout(s, k, h.all, h.hashplace);
      } else {
        NotedElsewhere(s, k, h.all, h.hashplace, t);
      }
    }
    forall x {:trigger x in h'.all} | x in h'.all
      ensures Placed(x, h'.nodes, h'.place) && Placed(x, h'.buckets[x.hashindex], h'.hashplace)
    {
      assert x in h.all;
      PlacedWithout(h.nodes, h.place[n], h.place, x);
      if x.hashindex == b {
        PlacedWithout(s, k, h.hashplace, x);
      }
    }
  }

  lemma WithoutAt<E>(s: seq<HashElement<E>>, k: nat, i: int)
    requires k < |s| && -1 <= i
    ensures At(Without(s, k), i) == At(s, if i < k then i else i + 1)
  {
  }

  lemma WithoutNoDuplicates<E>(c: seq<E>, p: nat)
    requires p < |c| && NoDuplicates(c)
    ensures NoDuplicates(Without(c, p))
  {
  }

  lemma IndexedWithout<E>(s: seq<HashElement<E>>, p: nat, getindex: E -> nat)
    requires p < |s| && Indexed(s, getindex)
    ensures Indexed(Without(s, p), getindex)
  {
  }

  lemma ElementsOfRest<E>(s: seq<HashElement<E>>, p: nat)
    requires p < |s|
    ensures Elements(Without(s, p)) == Without(Elements(s), p)
  {
  }

  // ----- links -----

  ghost predicate Within<E>(s: seq<HashElement<E>>, r: set<HashElement<E>>) {
    forall i {:trigger s[i]} :: 0 <= i < |s| ==> s[i] in r
  }

  /** The links between the nodes of a bucket are those of the sequence, both ways. */
  ghost predicate HashLinked<E>(s: seq<HashElement<E>>, r: set<HashElement<E>>)
    requires Within(s, r)
    reads r`hashnext, r`hashprev
  {
    && (forall i {:trigger s[i].hashnext} :: 0 <= i < |s| ==> s[i].hashnext == At(s, i + 1))
    && (forall i {:trigger s[i].hashprev} :: 0 <= i < |s| ==> s[i].hashprev == At(s, i - 1))
  }

  /** The nodes before and after number `k` are linked to each other instead. */
  ghost predicate HashJoined<E>(s: seq<HashElement<E>>, k: nat, r: set<HashElement<E>>)
    requires Within(s, r)
    reads r`hashnext, r`hashprev
  {
    && (forall i {:trigger s[i].hashnext} :: 0 <= i < |s| && i != k ==>
      s[i].hashnext == At(s, if i + 1 == k then k + 1 else i + 1))
    && (forall i {:trigger s[i].hashprev} :: 0 <= i < |s| && i != k ==>
      s[i].hashprev == At(s, if i == k + 1 then k - 1 else i - 1))
  }

  lemma HashLinkedShorter<E>(s: seq<HashElement<E>>, k: nat, r: set<HashElement<E>>, s': seq<HashElement<E>>,
      r': set<HashElement<E>>)
    requires k < |s| && s' == Without(s, k) && Within(s, r) && Within(s', r') && HashJoined(s, k, r)
    ensures HashLinked(s', r')
  {
  }

  /** The links between the nodes of the list of all nodes are those of the sequence, both ways. */
  ghost predicate ListLinked<E>(s: seq<HashElement<E>>, r: set<HashElement<E>>)
    requires Within(s, r)
    reads r`listnext, r`listprev
  {
    && (forall i {:trigger s[i].listnext} :: 0 <= i < |s| ==> s[i].listnext == At(s, i + 1))
    && (forall i {:trigger s[i].listprev} :: 0 <= i < |s| ==> s[i].listprev == At(s, i - 1))
  }

  /** The nodes before and after number `k` are linked to each other instead. */
  ghost predicate ListJoined<E>(s: seq<HashElement<E>>, k: nat, r: set<HashElement<E>>)
    requires Within(s, r)
    reads r`listnext, r`listprev
  {
    && (forall i {:trigger s[i].listnext} :: 0 <= i < |s| && i != k ==>
      s[i].listnext == At(s, if i + 1 == k then k + 1 else i + 1))
    && (forall i {:trigger s[i].listprev} :: 0 <= i < |s| && i != k ==>
      s[i].listprev == At(s, if i == k + 1 then k - 1 else i - 1))
  }

  lemma ListLinkedShorter<E>(s: seq<HashElement<E>>, k: nat, r: set<HashElement<E>>, s': seq<HashElement<E>>,
      r': set<HashElement<E>>)
    requires k < |s| && s' == Without(s, k) && Within(s, r) && Within(s', r') && ListJoined(s, k, r)
    ensures ListLinked(s', r')
  {
  }

  class RTPHashTable<E(==)> {
    const getindex: E -> nat
    const table: array<HashElement?<E>>
    var firsthashelem: HashElement?<E>
    var lasthashelem: HashElement?<E>
    var curhashelem: HashElement?<E>
    ghost var shape: Shape<E>
    // whether the cursor has been set, and where it is; past the end when it is on no element
    ghost var placed: bool
    ghost var pos: nat

    /** The sequence that the table stands for. */
    ghost function Contents(): seq<E>
      reads this`shape
    {
      Elements(shape.nodes)
    }

    ghost predicate ListLinks(h: Shape<E>)
      requires Within(h.nodes, h.all)
      reads this`firsthashelem, this`lasthashelem, h.all`listnext, h.all`listprev
    {
      && ListLinked(h.nodes, h.all)
      && firsthashelem == At(h.nodes, 0) && lasthashelem == At(h.nodes, |h.nodes| - 1)
    }

    ghost predicate BucketLinks(h: Shape<E>, b: nat)
      requires b < table.Length && b < |h.buckets| && Within(h.buckets[b], h.all)
      reads table, h.all`hashnext, h.all`hashprev
    {
      HashLinked(h.buckets[b], h.all) && table[b] == At(h.buckets[b], 0)
    }

    ghost predicate HashLinks(h: Shape<E>)
      requires Sound(h, table.Length)
      reads table, h.all`hashnext, h.all`hashprev
    {
      forall b {:trigger BucketLinks(h, b)} {:trigger h.buckets[b]} :: 0 <= b < table.Length ==> BucketLinks(h, b)
    }

    /** Everything but the cursor. */
    ghost predicate Linked()
      reads this`shape, this`firsthashelem, this`lasthashelem, table, shape.all
    {
      && Sound(shape, table.Length) && ListLinks(shape) && HashLinks(shape)
      && NoDuplicates(Contents()) && Indexed(shape.nodes, getindex)
    }

    ghost predicate CursorOk()
      reads this`shape, this`curhashelem, this`placed, this`pos
    {
      pos <= |shape.nodes| && (placed ==> curhashelem == At(shape.nodes, pos))
    }

    ghost predicate Valid()
      reads this, table, shape.all
    {
      Linked() && CursorOk()
    }

    constructor (hashsize: nat, index: E -> nat)
      ensures Valid() && Contents() == [] && !placed && fresh(table) && shape.all == {}
      ensures table.Length == hashsize && getindex == index
    {
      getindex := index;
      table := new HashElement?<E>[hashsize](i => null);
      firsthashelem, lasthashelem, curhashelem := null, null, null;
      new;
      NoteEmpty();
    }

    // ----- the cursor -----

    method SetCursor(n: HashElement?<E>, ghost p: nat)
      requires Linked() && p <= |shape.nodes| && n == At(shape.nodes, p)
      modifies this`curhashelem, this`placed, this`pos
      ensures Valid() && placed && pos == p
    {
      curhashelem := n;
      placed, pos := true, p;
    }

    method GotoFirstElement()
      requires Valid()
      modifies this`curhashelem, this`placed, this`pos
      ensures Valid() && placed && pos == 0
    {
      SetCursor(firsthashelem, 0);
    }

    method GotoLastElement()
      requires Valid()
      modifies this`curhashelem, this`placed, this`pos
      ensures Valid() && placed && pos == if |Contents()| == 0 then 0 else |Contents()| - 1
    {
      SetCursor(lasthashelem, if |shape.nodes| == 0 then 0 else |shape.nodes| - 1);
    }

    method HasCurrentElement() returns (has: bool)
      requires Valid() && placed
      ensures Valid() && has == (pos < |Contents()|)
    {
      return curhashelem != null;
    }

    method GetCurrentElement() returns (e: E)
      requires Valid() && placed && pos < |Contents()|
      ensures Valid() && e == Contents()[pos]
    {
      return curhashelem.element;
    }

    method GotoNextElement()
      requires Valid() && placed
      modifies this`curhashelem, this`placed, this`pos
      ensures Valid() && placed && pos == if old(pos) < |Contents()| then old(pos) + 1 else old(pos)
    {
      if curhashelem != null {
        SetCursor(curhashelem.listnext, pos + 1);
      }
    }

    /** Before the first element there is no element. */
    method GotoPreviousElement()
      requires Valid() && placed
      modifies this`curhashelem, this`placed, this`pos
      ensures Valid() && placed && pos == if 0 < old(pos) < |Contents()| then old(pos) - 1 else |Contents()|
    {
      if curhashelem != null {
        SetCursor(curhashelem.listprev, if pos == 0 then |shape.nodes| else pos - 1);
      }
    }

    // ----- finding -----

    /** The node that holds an element, found by walking its bucket. */
    method FindNode(e: E) returns (n: HashElement?<E>)
      requires Valid() && getindex(e) < table.Length
      ensures Valid()
      ensures n == null ==> e !in Contents()
      ensures n != null ==> n in shape.all && n.element == e && Contents()[shape.place[n]] == e
    {
      var index := getindex(e);
      ghost var s := shape.buckets[index];
      ghost var k := 0;
      assert BucketLinks(shape, index);
      n := table[index];
      var found := false;
      while !found && n != null
        invariant k <= |s| && n == At(s, k) && (found ==> n != null && n.element == e)
        invariant forall j :: 0 <= j < k ==> s[j].element != e
        decreases !found, |s| - k
      {
        if n.element == e {
          found := true;
        } else {
          n := n.hashnext;
          k := k + 1;
        }
      }
      if n == null {
        NotInBucket(e);
      } else {
        assert s[k] in shape.all;
      }
    }

    lemma NotInBucket(e: E)
      requires Linked()
      requires getindex(e) < table.Length ==>
        forall j :: 0 <= j < |shape.buckets[getindex(e)]| ==> shape.buckets[getindex(e)][j].element != e
      ensures e !in Contents()
    {
    }

    method HasElement(e: E) returns (found: bool)
      requires Valid()
      ensures Valid() && (found <==> e in Contents())
    {
      if getindex(e) >= table.Length {
        NotInBucket(e);
        return false;
      }
      var n := FindNode(e);
      return n != null;
    }

    /** On failure the cursor is on no element, except that an index out of range leaves it. */
    method GotoElement(e: E) returns (status: Status)
      requires Valid()
      modifies this`curhashelem, this`placed, this`pos
      ensures Valid()
      ensures status == if getindex(e) >= table.Length then InvalidHashIndex
        else if e in Contents() then Ok else ElementNotFound
      ensures status == Ok ==> placed && pos < |Contents()| && Contents()[pos] == e
      ensures status == ElementNotFound ==> placed && pos == |Contents()|
      ensures status == InvalidHashIndex ==> unchanged(this)
    {
      if getindex(e) >= table.Length { return InvalidHashIndex; }
      var n := FindNode(e);
      if n == null {
        SetCursor(n, |shape.nodes|);
        return ElementNotFound;
      }
      SetCursor(n, shape.place[n]);
      return Ok;
    }

    // ----- adding -----

    method AddElement(elem: E) returns (status: Status)
      requires Valid()
      modifies this, table, shape.all
      ensures Valid() && fresh(shape.all - old(shape.all)) && placed == old(placed)
      ensures status == if getindex(elem) >= table.Length then InvalidHashIndex
        else if elem in old(Contents()) then ElementAlreadyExists else Ok
      ensures Contents() == if status == Ok then old(Contents()) + [elem] else old(Contents())
      ensures pos == if old(pos) < |old(Contents())| then old(pos) else |Contents()|
    {
      if getindex(elem) >= table.Length { return InvalidHashIndex; }
      status := AddIndexed(elem);
    }

    method AddIndexed(elem: E) returns (status: Status)
      requires Valid() && getindex(elem) < table.Length
      modifies this, table, shape.all
      ensures Valid() && fresh(shape.all - old(shape.all)) && placed == old(placed)
      ensures status == if elem in old(Contents()) then ElementAlreadyExists else Ok
      ensures Contents() == if status == Ok then old(Contents()) + [elem] else old(Contents())
      ensures pos == if old(pos) < |old(Contents())| then old(pos) else |Contents()|
    {
      var found := HasElement(elem);
      if found {
        status := ElementAlreadyExists;
      } else {
        AddNode(elem);
        status := Ok;
      }
    }

    method AddNode(elem: E)
      requires Valid() && getindex(elem) < table.Length && elem !in Contents()
      modifies this, table, shape.all
      ensures Valid() && fresh(shape.all - old(shape.all)) && placed == old(placed)
      ensures Contents() == old(Contents()) + [elem]
      ensures pos == if old(pos) < |old(Contents())| then old(pos) else |Contents()|
    {
      ghost var before := shape.all;
      var newelem := new HashElement(elem, getindex(elem));
      PutNewNode(newelem);
      OneMore(before, newelem);
    }

    method PutNewNode(n: HashElement<E>)
      requires Valid() && n !in shape.all && n.hashprev == null && n.listprev == null && n.listnext == null
      requires n.hashindex == getindex(n.element) < table.Length && n.element !in Contents()
      modifies this, table, shape.all, n
      ensures Valid() && shape.all == old(shape.all) + {n} && placed == old(placed)
      ensures Contents() == old(Contents()) + [n.element]
      ensures pos == if old(pos) < |old(Contents())| then old(pos) else |Contents()|
    {
      ghost var h := PutNode(n);
      Note(h, n);
    }

    method PutNode(n: HashElement<E>) returns (ghost h: Shape<E>)
      requires Sound(shape, table.Length) && ListLinks(shape) && HashLinks(shape) && n !in shape.all
        && n.hashindex < table.Length
      requires n.hashprev == null && n.listprev == null && n.listnext == null
      modifies table, shape.all`hashprev, shape.all`listnext, n`hashnext, n`listprev
      modifies this`firsthashelem, this`lasthashelem
      ensures unchanged(this`shape, this`pos, this`placed)
      ensures Sound(h, table.Length) && ListLinks(h) && HashLinks(h)
      ensures h.nodes == shape.nodes + [n] && h.all == shape.all + {n}
    {
      h := Added(shape, n);
      AddedSound(shape, n, table.Length);
      PutInBucket(n, h);
      PutOnList(n, h);
    }

    /** The buckets of `h` are those of the table, and `n` before the others of its bucket. */
    ghost predicate BucketLongerBy(h: Shape<E>, n: HashElement<E>)
      requires Sound(shape, table.Length) && Sound(h, table.Length)
      reads this`shape, table
    {
      && h.all == shape.all + {n} && n.hashindex < table.Length
      && h.buckets[n.hashindex] == [n] + shape.buckets[n.hashindex]
      && forall b {:trigger h.buckets[b]} :: 0 <= b < table.Length && b != n.hashindex ==>
        h.buckets[b] == shape.buckets[b]
    }

    method PutInBucket(n: HashElement<E>, ghost h: Shape<E>)
      requires Sound(shape, table.Length) && HashLinks(shape) && n !in shape.all && n.hashprev == null
      requires Sound(h, table.Length) && BucketLongerBy(h, n) && ListLinks(shape)
      modifies table, shape.all`hashprev, n`hashnext
      ensures unchanged(this`shape, this`pos, this`placed)
      ensures HashLinks(h) && ListLinks(shape)
    {
      ghost var s := shape.buckets[n.hashindex];
      assert BucketLinks(shape, n.hashindex) && SameIndex(s, n.hashindex);
      PutAtHead(n, s);
      assert BucketLinks(h, n.hashindex);
      forall b | 0 <= b < table.Length && b != n.hashindex
        ensures BucketLinks(h, b)
      {
        assert old(BucketLinks(shape, b)) && h.buckets[b] == shape.buckets[b];
        assert SameIndex(shape.buckets[b], b);
      }
    }

    method PutAtHead(n: HashElement<E>, ghost s: seq<HashElement<E>>)
      requires n.hashindex < table.Length && table[n.hashindex] == At(s, 0) && n !in shape.all && n.hashprev == null
      requires Noted(s, shape.all, shape.hashplace) && SameIndex(s, n.hashindex) && HashLinked(s, shape.all)
      requires Within(shape.nodes, shape.all) && ListLinks(shape)
      modifies table, shape.all`hashprev, n`hashnext
      ensures unchanged(this`shape, this`pos, this`placed) && ListLinks(shape)
      ensures table[n.hashindex] == n && HashLinked([n] + s, shape.all + {n})
      ensures forall b :: 0 <= b < table.Length && b != n.hashindex ==> table[b] == old(table[b])
      ensures forall x {:trigger x.hashprev} :: x in shape.all && x.hashindex != n.hashindex ==>
        x.hashprev == old(x.hashprev)
    {
      var e := table[n.hashindex];
      table[n.hashindex] := n;
      n.hashnext := e;
      if e != null {
        e.hashprev := n;
      }
      BucketLonger(n, s, shape.all);
    }

    lemma BucketLonger(n: HashElement<E>, s: seq<HashElement<E>>, r: set<HashElement<E>>)
      requires Within(s, r) && n.hashnext == At(s, 0) && n.hashprev == null
      requires forall i {:trigger s[i].hashnext} :: 0 <= i < |s| ==> s[i].hashnext == At(s, i + 1)
      requires forall i {:trigger s[i].hashprev} :: 0 <= i < |s| ==> s[i].hashprev == if i == 0 then n else s[i - 1]
      ensures Within([n] + s, r + {n}) && HashLinked([n] + s, r + {n})
    {
    }

    method PutOnList(n: HashElement<E>, ghost h: Shape<E>)
      requires Noted(shape.nodes, shape.all, shape.place) && ListLinks(shape) && n !in shape.all
      requires n.listprev == null && n.listnext == null && Sound(h, table.Length) && HashLinks(h)
      requires h.nodes == shape.nodes + [n]
      modifies shape.all`listnext, n`listprev, this`firsthashelem, this`lasthashelem
      ensures unchanged(this`shape, this`pos, this`placed)
      ensures ListLinks(h) && HashLinks(h)
    {
      PutAtEnd(n, shape.nodes, h);
      ListLonger(n, h);
    }

    method PutAtEnd(n: HashElement<E>, ghost s: seq<HashElement<E>>, ghost h: Shape<E>)
      requires Within(s, shape.all) && n !in shape.all && n.listprev == null && n.listnext == null
      requires firsthashelem == At(s, 0) && lasthashelem == At(s, |s| - 1) && Sound(h, table.Length) && HashLinks(h)
      modifies shape.all`listnext, n`listprev, this`firsthashelem, this`lasthashelem
      ensures unchanged(this`shape, this`pos, this`placed)
      ensures firsthashelem == (if s == [] then n else s[0]) && lasthashelem == n && n.listprev == At(s, |s| - 1)
      ensures s != [] ==> s[|s| - 1].listnext == n
      ensures HashLinks(h)
      ensures forall x {:trigger x.listnext} :: x in shape.all && x != At(s, |s| - 1) ==> x.listnext == old(x.listnext)
    {
      if firsthashelem == null {
        firsthashelem := n;
        lasthashelem := n;
      } else {
        lasthashelem.listnext := n;
        n.listprev := lasthashelem;
        lasthashelem := n;
      }
    }

    lemma ListLonger(n: HashElement<E>, h: Shape<E>)
      requires Within(shape.nodes, shape.all) && Within(h.nodes, h.all) && h.nodes == shape.nodes + [n]
      requires n.listnext == null && n.listprev == At(shape.nodes, |shape.nodes| - 1)
      requires
        var s := shape.nodes;
        && firsthashelem == (if s == [] then n else s[0]) && lasthashelem == n
        && (forall i {:trigger s[i].listnext} :: 0 <= i < |s| ==> s[i].listnext == if i == |s| - 1 then n else s[i + 1])
        && (forall i {:trigger s[i].listprev} :: 0 <= i < |s| ==> s[i].listprev == At(s, i - 1))
      ensures ListLinks(h)
    {
    }

    ghost method Note(h: Shape<E>, n: HashElement<E>)
      requires Sound(h, table.Length) && ListLinks(h) && HashLinks(h) && CursorOk()
      requires h.nodes == shape.nodes + [n] && NoDuplicates(Contents()) && n.element !in Contents()
      requires Indexed(shape.nodes, getindex) && n.hashindex == getindex(n.element)
      modifies this`shape, this`pos
      ensures Valid() && shape == h && Contents() == old(Contents()) + [n.element]
      ensures pos == if old(pos) < |old(Contents())| then old(pos) else |Contents()|
    {
      NodesLonger(shape.nodes, n, getindex);
      ghost var p := if pos < |shape.nodes| then pos else |shape.nodes| + 1;
      assert At(h.nodes, p) == At(shape.nodes, pos);
      SetShape(h, p);
    }

    /** The nodes are those of `h` from now on. */
    ghost method SetShape(h: Shape<E>, p: nat)
      requires Sound(h, table.Length) && ListLinks(h) && HashLinks(h)
      requires NoDuplicates(Elements(h.nodes)) && Indexed(h.nodes, getindex)
      requires p <= |h.nodes| && (placed ==> curhashelem == At(h.nodes, p))
      modifies this`shape, this`pos
      ensures Valid() && shape == h && pos == p
    {
      shape, pos := h, p;
    }

    // ----- deleting -----

    /** The cursor goes to the element after the deleted one. */
    method DeleteCurrentElement() returns (status: Status)
      requires Valid() && placed
      modifies this, table, shape.all
      ensures Valid() && placed && shape.all <= old(shape.all) && pos == old(pos)
      ensures
        var s, p := old(Contents()), old(pos);
        if p < |s| then status == Ok && Contents() == Without(s, p) else status == NoCurrentElement && Contents() == s
    {
      if curhashelem == null { return NoCurrentElement; }
      DeleteNode(curhashelem);
      return Ok;
    }

    method DeleteNode(n: HashElement<E>)
      requires Valid() && placed && n == curhashelem
      modifies this, table, shape.all
      ensures Valid() && placed && shape.all <= old(shape.all) && pos == old(pos)
      ensures old(pos) < |old(Contents())| && Contents() == Without(old(Contents()), old(pos))
    {
      var next, h := TakeOut(n, pos);
      Forget(next, h);
    }

    method TakeOut(n: HashElement<E>, ghost p: nat) returns (next: HashElement?<E>, ghost h: Shape<E>)
      requires Sound(shape, table.Length) && ListLinks(shape) && HashLinks(shape) && n == At(shape.nodes, p)
      modifies table, shape.all`hashprev, shape.all`hashnext, shape.all`listprev, shape.all`listnext
      modifies this`firsthashelem, this`lasthashelem
      ensures unchanged(this`shape, this`pos, this`placed)
      ensures Sound(h, table.Length) && ListLinks(h) && HashLinks(h) && h.all <= shape.all
      ensures p < |shape.nodes| && h.nodes == Without(shape.nodes, p) && next == At(shape.nodes, p + 1)
    {
      assert shape.nodes[p] in shape.all;
      h := Removed(shape, n);
      RemovedSound(shape, n, table.Length);
      TakeFromBucket(n);
      next := TakeFromList(n, p, h);
    }

    method TakeFromBucket(n: HashElement<E>)
      requires Sound(shape, table.Length) && HashLinks(shape) && ListLinks(shape) && n in shape.all
      requires Sound(Removed(shape, n), table.Length)
      modifies table, shape.all`hashprev, shape.all`hashnext
      ensures unchanged(this`shape, this`pos, this`placed)
      ensures HashLinks(Removed(shape, n)) && ListLinks(shape)
    {
      ghost var s, k := shape.buckets[n.hashindex], shape.hashplace[n];
      assert BucketLinks(shape, n.hashindex) && SameIndex(s, n.hashindex);
      JoinInBucket(n, s, k);
      ghost var h := Removed(shape, n);
      BucketShorter(n, s, k, h);
      forall b | 0 <= b < table.Length && b != n.hashindex
        ensures BucketLinks(h, b)
      {
        assert old(BucketLinks(shape, b)) && h.buckets[b] == shape.buckets[b];
        assert SameIndex(shape.buckets[b], b);
      }
    }

    method JoinInBucket(n: HashElement<E>, ghost s: seq<HashElement<E>>, ghost k: nat)
      requires n.hashindex < table.Length && Noted(s, shape.all, shape.hashplace) && SameIndex(s, n.hashindex)
      requires HashLinked(s, shape.all) && table[n.hashindex] == At(s, 0) && k < |s| && s[k] == n
      requires Within(shape.nodes, shape.all) && ListLinks(shape)
      modifies table, shape.all`hashprev, shape.all`hashnext
      ensures unchanged(this`shape, this`pos, this`placed)
      ensures HashJoined(s, k, shape.all) && table[n.hashindex] == At(s, if k == 0 then 1 else 0) && ListLinks(shape)
      ensures forall b :: 0 <= b < table.Length && b != n.hashindex ==> table[b] == old(table[b])
      ensures forall x {:trigger x.hashnext} :: x in shape.all && x.hashindex != n.hashindex ==>
        x.hashnext == old(x.hashnext)
      ensures forall x {:trigger x.hashprev} :: x in shape.all && x.hashindex != n.hashindex ==>
        x.hashprev == old(x.hashprev)
    {
      var index := n.hashindex;
      var tmp1, tmp2 := n.hashprev, n.hashnext;
      if tmp1 == null {
        table[index] := tmp2;
        if tmp2 != null {
          tmp2.hashprev := null;
        }
      } else {
        tmp1.hashnext := tmp2;
        if tmp2 != null {
          tmp2.hashprev := tmp1;
        }
      }
    }

    lemma BucketShorter(n: HashElement<E>, s: seq<HashElement<E>>, k: nat, h: Shape<E>)
      requires n.hashindex < table.Length && n.hashindex < |h.buckets| && k < |s| && s[k] == n
      requires h.buckets[n.hashindex] == Without(s, k) && Within(Without(s, k), h.all) && Within(s, shape.all)
      requires HashJoined(s, k, shape.all) && table[n.hashindex] == At(s, if k == 0 then 1 else 0)
      ensures BucketLinks(h, n.hashindex)
    {
      HashLinkedShorter(s, k, shape.all, h.buckets[n.hashindex], h.all);
    }

    method TakeFromList(n: HashElement<E>, ghost p: nat, ghost h: Shape<E>) returns (next: HashElement?<E>)
      requires Noted(shape.nodes, shape.all, shape.place) && ListLinks(shape) && p < |shape.nodes|
        && shape.nodes[p] == n
      requires h.nodes == Without(shape.nodes, p) && Sound(h, table.Length) && HashLinks(h)
      modifies shape.all`listprev, shape.all`listnext, this`firsthashelem, this`lasthashelem
      ensures unchanged(this`shape, this`pos, this`placed)
      ensures ListLinks(h) && HashLinks(h) && next == At(shape.nodes, p + 1)
    {
      ghost var s := shape.nodes;
      next := n.listnext;
      JoinInList(n, s, p);
      assert HashLinks(h);
      ListShorter(s, p, h);
    }

    method JoinInList(n: HashElement<E>, ghost s: seq<HashElement<E>>, ghost p: nat)
      requires Noted(s, shape.all, shape.place) && ListLinked(s, shape.all) && p < |s| && s[p] == n
      requires firsthashelem == At(s, 0) && lasthashelem == At(s, |s| - 1)
      modifies shape.all`listprev, shape.all`listnext, this`firsthashelem, this`lasthashelem
      ensures unchanged(this`shape, this`pos, this`placed)
      ensures ListJoined(s, p, shape.all)
      ensures firsthashelem == At(s, if p == 0 then 1 else 0)
      ensures lasthashelem == At(s, if p == |s| - 1 then p - 1 else |s| - 1)
    {
      var tmp1, tmp2 := n.listprev, n.listnext;
      if tmp1 == null {
        firsthashelem := tmp2;
        if tmp2 != null {
          tmp2.listprev := null;
        } else {
          lasthashelem := null;
        }
      } else {
        tmp1.listnext := tmp2;
        if tmp2 != null {
          tmp2.listprev := tmp1;
        } else {
          lasthashelem := tmp1;
        }
      }
    }

    lemma ListShorter(s: seq<HashElement<E>>, p: nat, h: Shape<E>)
      requires p < |s| && h.nodes == Without(s, p) && Within(s, shape.all) && Within(h.nodes, h.all)
      requires ListJoined(s, p, shape.all)
      requires firsthashelem == At(s, if p == 0 then 1 else 0)
      requires lasthashelem == At(s, if p == |s| - 1 then p - 1 else |s| - 1)
      ensures ListLinks(h)
    {
      ListLinkedShorter(s, p, shape.all, h.nodes, h.all);
    }

    /** Moves the cursor off the deleted node. */
    method Forget(next: HashElement?<E>, ghost h: Shape<E>)
      requires Sound(h, table.Length) && ListLinks(h) && HashLinks(h) && h.all <= shape.all
      requires pos < |shape.nodes| && h.nodes == Without(shape.nodes, pos) && next == At(shape.nodes, pos + 1) && placed
      requires NoDuplicates(Contents()) && Indexed(shape.nodes, getindex)
      modifies this`shape, this`curhashelem, this`pos
      ensures Valid() && shape == h && Contents() == Without(old(Contents()), pos) && pos == old(pos)
    {
      WithoutAt(shape.nodes, pos, pos);
      ElementsOfRest(shape.nodes, pos);
      WithoutNoDuplicates(Contents(), pos);
      IndexedWithout(shape.nodes, pos, getindex);
      curhashelem := next;
      SetShape(h, pos);
    }

    method DeleteElement(elem: E) returns (status: Status)
      requires Valid()
      modifies this, table, shape.all
      ensures Valid() && shape.all <= old(shape.all)
      ensures status == if getindex(elem) >= table.Length then InvalidHashIndex
        else if elem in old(Contents()) then Ok else ElementNotFound
      ensures status == Ok ==> placed && pos < |old(Contents())| && old(Contents())[pos] == elem
      ensures status == Ok ==> Contents() == Without(old(Contents()), pos)
      ensures status != Ok ==> Contents() == old(Contents())
    {
      status := GotoElement(elem);
      if status == Ok {
        status := DeleteCurrentElement();
      }
    }

    /** The cursor is left as it was, on a deleted node if there were any. */
    method Clear()
      requires Valid()
      modifies this, table
      ensures Valid() && Contents() == [] && !placed && curhashelem == old(curhashelem)
    {
      for i := 0 to table.Length
        invariant unchanged(this) && forall b :: 0 <= b < i ==> table[b] == null
      {
        table[i] := null;
      }
      firsthashelem := null;
      lasthashelem := null;
      NoteEmpty();
    }

    ghost method NoteEmpty()
      requires firsthashelem == null && lasthashelem == null && forall b :: 0 <= b < table.Length ==> table[b] == null
      modifies this`shape, this`placed, this`pos
      ensures Valid() && Contents() == [] && !placed && shape.all == {}
    {
      shape := Empty(table.Length);
      placed, pos := false, 0;
      forall b | 0 <= b < table.Length
        ensures BucketLinks(shape, b)
      {
        assert shape.buckets[b] == [] && table[b] == null;
      }
    }
  }

  ghost function Empty<E>(size: nat): (h: Shape<E>)
    ensures Sound(h, size) && h.all == {} && h.nodes == [] && forall b :: 0 <= b < size ==> h.buckets[b] == []
  {
    Shape({}, [], map[], seq(size, i => []), map[])
  }

  // ----- deleting while iterating -----

  function Filter<E(==)>(s: seq<E>, keep: E -> bool): (r: seq<E>) {
    if s == [] then [] else Filter(s[..|s| - 1], keep) + if keep(s[|s| - 1]) then [s[|s| - 1]] else []
  }

  /** Between two steps: the kept ones of those visited, then those still to visit. */
  ghost predicate Swept<E>(all: seq<E>, visited: seq<E>, contents: seq<E>, pos: nat, keep: E -> bool) {
    && |visited| <= |all| && visited == all[..|visited|] && pos <= |contents|
    && contents[..pos] == Filter(visited, keep) && contents[pos..] == all[|visited|..]
  }

  lemma SweptStep<E>(all: seq<E>, visited: seq<E>, contents: seq<E>, pos: nat, keep: E -> bool)
    requires Swept(all, visited, contents, pos, keep) && pos < |contents|
    ensures
      var e := contents[pos];
      if keep(e) then Swept(all, visited + [e], contents, pos + 1, keep)
      else Swept(all, visited + [e], Without(contents, pos), pos, keep)
  {
  }

  lemma SweptAll<E>(all: seq<E>, visited: seq<E>, contents: seq<E>, keep: E -> bool)
    requires Swept(all, visited, contents, |contents|, keep)
    ensures visited == all && contents == Filter(all, keep)
  {
    assert contents[..|contents|] == contents && contents[|contents|..] == [];
    assert all[|visited|..] == [];
  }

  method SweepOne<E(==)>(t: RTPHashTable<E>, keep: E -> bool, ghost all: seq<E>, ghost visited: seq<E>) returns (e: E)
    requires t.Valid() && t.placed && t.pos < |t.Contents()| && Swept(all, visited, t.Contents(), t.pos, keep)
    modifies t, t.table, t.shape.all
    ensures t.Valid() && t.placed && t.shape.all <= old(t.shape.all)
    ensures Swept(all, visited + [e], t.Contents(), t.pos, keep)
    ensures |t.Contents()| - t.pos == |old(t.Contents())| - old(t.pos) - 1
  {
    SweptStep(all, visited, t.Contents(), t.pos, keep);
    e := t.GetCurrentElement();
    if keep(e) {
      t.GotoNextElement();
    } else {
      var status := t.DeleteCurrentElement();
    }
  }

  /** From the first element on, deleting some elements and stepping over the others visits every
      element once and leaves exactly the kept ones, in their order. */
  method Sweep<E(==)>(t: RTPHashTable<E>, keep: E -> bool) returns (visited: seq<E>)
    requires t.Valid()
    modifies t, t.table, t.shape.all
    ensures t.Valid() && visited == old(t.Contents()) && t.Contents() == Filter(old(t.Contents()), keep)
  {
    ghost var all := t.Contents();
    visited := [];
    t.GotoFirstElement();
    var has := t.HasCurrentElement();
    while has
      invariant t.Valid() && t.placed && t.shape.all <= old(t.shape.all) && t.pos <= |t.Contents()|
      invariant has == (t.pos < |t.Contents()|)
      invariant Swept(all, visited, t.Contents(), t.pos, keep)
      decreases |t.Contents()| - t.pos
    {
      var e := SweepOne(t, keep, all, visited);
      visited := visited + [e];
      has := t.HasCurrentElement();
    }
    SweptAll(all, visited, t.Contents(), keep);
  }
}
