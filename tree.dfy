/**
 * The transaction list of an order in the admin panel (`order()` and
 * `sortTransactionByRelation` of the admin base controller).
 *
 * The rows of one order come back from the store as a list; `uasort`
 * orders them by a text key (stable); a pass over the sorted rows builds
 * `$array_asc`, one node per `unique_id` holding the row (with its original
 * list key, `org_key`) and the ids of the rows whose `reference_id` names
 * it (`children`); finally every node whose row has no `reference_id` is
 * walked depth first, and each row reached is written to `$array_out`
 * under its `org_key`.
 */
module TransactionTree {
  import opened Php
  import opened Rows

  /** A row of the order's list together with its key in that list (`org_key`). */
  datatype Entry = Entry(orgKey: nat, row: Row)

  function Uid(row: Row): string
  {
    Text(Get(row, UniqueId))
  }

  /** `if ($val['reference_id'])`: the row names a parent. */
  predicate HasParent(row: Row)
  {
    Truthy(Get(row, ReferenceId))
  }

  function ParentId(row: Row): string
  {
    Text(Get(row, ReferenceId))
  }

  /** No `unique_id` occurs twice (the column is the table's primary key). */
  ghost predicate DistinctUids(s: seq<Entry>)
  {
    forall i, j :: 0 <= i < j < |s| ==> Uid(s[i].row) != Uid(s[j].row)
  }

  ghost predicate DistinctRowUids(ts: seq<Row>)
  {
    forall i, j :: 0 <= i < j < |ts| ==> Uid(ts[i]) != Uid(ts[j])
  }

  // ---------------------------------------------------------------------
  // $array_asc

  /**
   * One entry of `$array_asc`: the row stored under the id (absent when
   * only children named the id) and the ids of its children.
   */
  datatype Node = Node(item: Option<Entry>, children: seq<string>)

  /** `$array_asc`: its keys in insertion order and the node under each key. */
  datatype Grouping = Grouping(order: seq<string>, nodes: map<string, Node>)

  /** Writing to `$array_asc[x]` adds `x` at the end unless it is already a key. */
  function Touch(order: seq<string>, x: string): (r: seq<string>)
    ensures x in r && forall y | y in order :: y in r
  {
    if x in order then order else order + [x]
  }

  /** The keys of `$array_asc` after the pass over `s`, in insertion order. */
  function TouchOrder(s: seq<Entry>): seq<string>
  {
    if s == [] then []
    else
      var e := s[|s| - 1];
      var o := Touch(TouchOrder(s[..|s| - 1]), Uid(e.row));
      if HasParent(e.row) then Touch(o, ParentId(e.row)) else o
  }

  /** The row stored under `u` after the pass over `s`. */
  function ItemOf(s: seq<Entry>, u: string): Option<Entry>
  {
    if s == [] then None
    else if Uid(s[|s| - 1].row) == u then Some(s[|s| - 1])
    else ItemOf(s[..|s| - 1], u)
  }

  /** The children listed under `u` after the pass over `s`: the rows naming `u`, in the order of `s`. */
  function ChildIds(s: seq<Entry>, u: string): seq<string>
  {
    if s == [] then []
    else
      var e := s[|s| - 1];
      ChildIds(s[..|s| - 1], u) + (if HasParent(e.row) && ParentId(e.row) == u then [Uid(e.row)] else [])
  }

  /** An id the pass never wrote to holds nothing. */
  lemma {:induction false} Untouched(s: seq<Entry>, u: string)
    requires u !in TouchOrder(s)
    ensures ItemOf(s, u) == None && ChildIds(s, u) == []
  {
    if s != [] {
      var e := s[|s| - 1];
      var o := Touch(TouchOrder(s[..|s| - 1]), Uid(e.row));
      assert u !in o;
      Untouched(s[..|s| - 1], u);
    }
  }

  lemma PassStep(s: seq<Entry>, e: Entry)
    ensures (s + [e])[..|s|] == s && (s + [e])[|s|] == e
    ensures TouchOrder(s + [e]) == Settle(Touch(TouchOrder(s), Uid(e.row)), e)
    ensures forall u :: ItemOf(s + [e], u) == if Uid(e.row) == u then Some(e) else ItemOf(s, u)
    ensures forall u :: ChildIds(s + [e], u) == ChildIds(s, u) + Named(e, u)
  {
    assert (s + [e])[..|s|] == s;
  }

  function Settle(o: seq<string>, e: Entry): seq<string>
  {
    if HasParent(e.row) then Touch(o, ParentId(e.row)) else o
  }

  /** `[unique_id]` when the row names `u` as its parent, else nothing. */
  function Named(e: Entry, u: string): seq<string>
  {
    if HasParent(e.row) && ParentId(e.row) == u then [Uid(e.row)] else []
  }

  /** `$array_asc[$uid]` receives the row; children gathered under the id so far stay. */
  function PutItem(g: Grouping, e: Entry): Grouping
  {
    var uid := Uid(e.row);
    if uid in g.nodes then Grouping(g.order, g.nodes[uid := Node(Some(e), g.nodes[uid].children)])
    else Grouping(g.order + [uid], g.nodes[uid := Node(Some(e), [])])
  }

  /** `$array_asc[$ref]['children'][] = $uid`, creating the key when it is new. */
  function AddChild(g: Grouping, ref: string, uid: string): Grouping
  {
    if ref in g.nodes then Grouping(g.order, g.nodes[ref := Node(g.nodes[ref].item, g.nodes[ref].children + [uid])])
    else Grouping(g.order + [ref], g.nodes[ref := Node(None, [uid])])
  }

  /** One step of the pass over the sorted rows. */
  function Place(g: Grouping, e: Entry): Grouping
  {
    var g1 := PutItem(g, e);
    if HasParent(e.row) then AddChild(g1, ParentId(e.row), Uid(e.row)) else g1
  }

  /** `$array_asc` as the pass over `s` leaves it. */
  function Pass(s: seq<Entry>): Grouping
  {
    if s == [] then Grouping([], map[]) else Place(Pass(s[..|s| - 1]), s[|s| - 1])
  }

  /** `g` is `$array_asc` as the pass over `s` leaves it, key by key. */
  ghost predicate Describes(g: Grouping, s: seq<Entry>)
  {
    g.order == TouchOrder(s) &&
    (forall u :: u in g.nodes <==> u in TouchOrder(s)) &&
    (forall u | u in g.nodes :: g.nodes[u] == Node(ItemOf(s, u), ChildIds(s, u)))
  }

  /** `g` is `$array_asc` after the row `e` of the pass was stored, before it is listed as a child. */
  ghost predicate Stored(g: Grouping, t: seq<Entry>, e: Entry)
  {
    g.order == Touch(TouchOrder(t), Uid(e.row)) &&
    (forall u :: u in g.nodes <==> u in g.order) &&
    (forall u | u in g.nodes :: g.nodes[u] == Node(ItemOf(t + [e], u), ChildIds(t, u)))
  }

  lemma ItemOfSnoc(t: seq<Entry>, e: Entry, u: string)
    ensures ItemOf(t + [e], u) == if Uid(e.row) == u then Some(e) else ItemOf(t, u)
  {
    assert (t + [e])[..|t|] == t;
  }

  lemma ChildIdsSnoc(t: seq<Entry>, e: Entry, u: string)
    ensures ChildIds(t + [e], u) == ChildIds(t, u) + Named(e, u)
  {
    assert (t + [e])[..|t|] == t;
  }

  lemma TouchOrderSnoc(t: seq<Entry>, e: Entry)
    ensures TouchOrder(t + [e]) == Settle(Touch(TouchOrder(t), Uid(e.row)), e)
  {
    assert (t + [e])[..|t|] == t;
  }

  /** Storing the row under its id. */
  lemma PutItemStored(g: Grouping, t: seq<Entry>, e: Entry)
    requires Describes(g, t)
    ensures Stored(PutItem(g, e), t, e)
  {
    var uid := Uid(e.row);
    var g1 := PutItem(g, e);
    if uid !in TouchOrder(t) {
      Untouched(t, uid);
    }
    forall u | u in g1.nodes ensures g1.nodes[u] == Node(ItemOf(t + [e], u), ChildIds(t, u)) {
      ItemOfSnoc(t, e, u);
    }
  }

  /** Listing the row among its parent's children. */
  lemma SettleDescribes(g: Grouping, t: seq<Entry>, e: Entry)
    requires Stored(g, t, e)
    ensures Describes(if HasParent(e.row) then AddChild(g, ParentId(e.row), Uid(e.row)) else g, t + [e])
  {
    TouchOrderSnoc(t, e);
    if HasParent(e.row) {
      SettleParent(g, t, e);
    } else {
      SettleRoot(g, t, e);
    }
  }

  lemma SettleRoot(g: Grouping, t: seq<Entry>, e: Entry)
    requires Stored(g, t, e) && !HasParent(e.row)
    ensures forall u | u in g.nodes :: g.nodes[u] == Node(ItemOf(t + [e], u), ChildIds(t + [e], u))
  {
    forall u | u in g.nodes ensures ChildIds(t + [e], u) == ChildIds(t, u) {
      ChildIdsSnoc(t, e, u);
    }
  }

  lemma SettleParent(g: Grouping, t: seq<Entry>, e: Entry)
    requires Stored(g, t, e) && HasParent(e.row)
    ensures var g2 := AddChild(g, ParentId(e.row), Uid(e.row));
      (forall u :: u in g2.nodes <==> u in Touch(g.order, ParentId(e.row))) &&
      (forall u | u in g2.nodes :: g2.nodes[u] == Node(ItemOf(t + [e], u), ChildIds(t + [e], u)))
  {
    var ref := ParentId(e.row);
    var g2 := AddChild(g, ref, Uid(e.row));
    if ref !in g.nodes {
      Untouched(t, ref);
      ItemOfSnoc(t, e, ref);
    }
    forall u | u in g2.nodes ensures g2.nodes[u] == Node(ItemOf(t + [e], u), ChildIds(t + [e], u)) {
      ChildIdsSnoc(t, e, u);
      if u != ref {
        assert g2.nodes[u] == g.nodes[u];
      }
    }
  }

  /**
   * What the pass leaves, key by key: the keys are the ids the rows wrote
   * to, in the order first written; under each key is the row with that id
   * (if any) and the ids of the rows naming it as parent, in sorted order.
   */
  lemma {:induction false} PassContents(s: seq<Entry>)
    ensures Pass(s).order == TouchOrder(s)
    ensures forall u :: u in Pass(s).nodes <==> u in TouchOrder(s)
    ensures forall u | u in Pass(s).nodes :: Pass(s).nodes[u] == Node(ItemOf(s, u), ChildIds(s, u))
  {
    if s != [] {
      var t := s[..|s| - 1];
      var e := s[|s| - 1];
      assert s == t + [e];
      PassContents(t);
      PutItemStored(Pass(t), t, e);
      SettleDescribes(PutItem(Pass(t), e), t, e);
    }
  }

  /**
   * The loop that builds `$array_asc` from the sorted rows. A row whose id
   * is already a key (because a child named it first) takes its place there
   * and keeps the children gathered so far; a row with a `reference_id`
   * then adds its id to the children of that key, creating it if needed.
   */
  method Group(sorted: seq<Entry>) returns (g: Grouping)
    requires DistinctUids(sorted)
    ensures g == Pass(sorted)
  {
    var order: seq<string> := [];
    var nodes: map<string, Node> := map[];
    for i := 0 to |sorted|
      invariant Grouping(order, nodes) == Pass(sorted[..i])
    {
      ghost var before := Grouping(order, nodes);
      var val := sorted[i];
      var uid := Uid(val.row);
      if uid in nodes {
        nodes := nodes[uid := Node(Some(val), nodes[uid].children)];
      } else {
        order := order + [uid];
        nodes := nodes[uid := Node(Some(val), [])];
      }
      ghost var middle := Grouping(order, nodes);
      assert middle == PutItem(before, val);
      if HasParent(val.row) {
        var ref := ParentId(val.row);
        if ref in nodes {
          nodes := nodes[ref := Node(nodes[ref].item, nodes[ref].children + [uid])];
        } else {
          order := order + [ref];
          nodes := nodes[ref := Node(None, [uid])];
        }
        assert Grouping(order, nodes) == AddChild(middle, ref, uid);
      }
      assert sorted[..i + 1][..i] == sorted[..i];
    }
    assert sorted[..|sorted|] == sorted;
    g := Grouping(order, nodes);
  }

  // ---------------------------------------------------------------------
  // What `$array_asc` looks like after the pass

  /** `c`'s node holds a row whose `reference_id` is `p`. */
  ghost predicate ChildOf(g: Grouping, c: string, p: string)
  {
    c in g.nodes && g.nodes[c].item.Some? &&
    HasParent(g.nodes[c].item.value.row) && ParentId(g.nodes[c].item.value.row) == p
  }

  /**
   * The shape the pass gives `$array_asc` when ids are unique: the key list
   * has no repeats, a row sits under its own id, and the children listed
   * under `p` are, without repeats, exactly the ids whose row names `p`.
   */
  ghost predicate WellFormed(g: Grouping)
  {
    Distinct(g.order) &&
    (forall u :: u in g.nodes <==> u in g.order) &&
    (forall u | u in g.nodes && g.nodes[u].item.Some? :: Uid(g.nodes[u].item.value.row) == u) &&
    (forall p | p in g.nodes :: Distinct(g.nodes[p].children)) &&
    (forall p, c | p in g.nodes && c in g.nodes[p].children :: ChildOf(g, c, p)) &&
    (forall c | c in g.nodes && g.nodes[c].item.Some? && HasParent(g.nodes[c].item.value.row) ::
       ParentId(g.nodes[c].item.value.row) in g.nodes &&
       c in g.nodes[ParentId(g.nodes[c].item.value.row)].children)
  }

  lemma {:induction false} ItemOfIn(s: seq<Entry>, u: string)
    requires ItemOf(s, u).Some?
    ensures ItemOf(s, u).value in s && Uid(ItemOf(s, u).value.row) == u
  {
    if Uid(s[|s| - 1].row) != u {
      ItemOfIn(s[..|s| - 1], u);
    }
  }

  lemma {:induction false} ItemOfFound(s: seq<Entry>, k: int)
    requires DistinctUids(s) && 0 <= k < |s|
    ensures ItemOf(s, Uid(s[k].row)) == Some(s[k])
  {
    if k < |s| - 1 {
      ItemOfFound(s[..|s| - 1], k);
    }
  }

  lemma {:induction false} ChildIdsMembers(s: seq<Entry>, p: string, c: string)
    ensures c in ChildIds(s, p) <==>
      exists k :: 0 <= k < |s| && Uid(s[k].row) == c && HasParent(s[k].row) && ParentId(s[k].row) == p
  {
    if c in ChildIds(s, p) {
      ChildIdsSound(s, p, c);
    }
    if exists k :: 0 <= k < |s| && Uid(s[k].row) == c && HasParent(s[k].row) && ParentId(s[k].row) == p {
      var k :| 0 <= k < |s| && Uid(s[k].row) == c && HasParent(s[k].row) && ParentId(s[k].row) == p;
      ChildIdsComplete(s, p, k);
    }
  }

  lemma {:induction false} ChildIdsSound(s: seq<Entry>, p: string, c: string)
    requires c in ChildIds(s, p)
    ensures exists k :: 0 <= k < |s| && Uid(s[k].row) == c && HasParent(s[k].row) && ParentId(s[k].row) == p
  {
    var t := s[..|s| - 1];
    if c in ChildIds(t, p) {
      ChildIdsSound(t, p, c);
      var k :| 0 <= k < |t| && Uid(t[k].row) == c && HasParent(t[k].row) && ParentId(t[k].row) == p;
      assert s[k] == t[k];
    } else {
      var k := |s| - 1;
      assert Uid(s[k].row) == c && HasParent(s[k].row) && ParentId(s[k].row) == p;
    }
  }

  lemma {:induction false} ChildIdsComplete(s: seq<Entry>, p: string, k: int)
    requires 0 <= k < |s| && HasParent(s[k].row) && ParentId(s[k].row) == p
    ensures Uid(s[k].row) in ChildIds(s, p)
  {
    var t := s[..|s| - 1];
    if k < |t| {
      assert t[k] == s[k];
      ChildIdsComplete(t, p, k);
      assert Uid(s[k].row) in ChildIds(t, p);
    }
  }

  lemma {:induction false} ChildIdsDistinct(s: seq<Entry>, p: string)
    requires DistinctUids(s)
    ensures Distinct(ChildIds(s, p))
  {
    if s != [] {
      var t := s[..|s| - 1];
      var u := Uid(s[|s| - 1].row);
      ChildIdsDistinct(t, p);
      ChildIdsMembers(t, p, u);
    }
  }

  lemma {:induction false} TouchOrderDistinct(s: seq<Entry>)
    ensures Distinct(TouchOrder(s))
  {
    if s != [] {
      TouchOrderDistinct(s[..|s| - 1]);
    }
  }

  /** Built from rows with unique ids, `$array_asc` is well formed. */
  lemma PassWellFormed(s: seq<Entry>)
    requires DistinctUids(s)
    ensures WellFormed(Pass(s))
  {
    var g := Pass(s);
    PassContents(s);
    TouchOrderDistinct(s);
    forall u | u in g.nodes && g.nodes[u].item.Some?
      ensures Uid(g.nodes[u].item.value.row) == u
    {
      ItemOfIn(s, u);
    }
    forall p | p in g.nodes
      ensures Distinct(g.nodes[p].children)
    {
      ChildIdsDistinct(s, p);
    }
    forall p, c | p in g.nodes && c in g.nodes[p].children
      ensures ChildOf(g, c, p)
    {
      ChildIdsMembers(s, p, c);
      var k :| 0 <= k < |s| && Uid(s[k].row) == c && HasParent(s[k].row) && ParentId(s[k].row) == p;
      ItemOfFound(s, k);
      if c !in TouchOrder(s) {
        Untouched(s, c);
      }
    }
    forall c | c in g.nodes && g.nodes[c].item.Some? && HasParent(g.nodes[c].item.value.row)
      ensures ParentId(g.nodes[c].item.value.row) in g.nodes
      ensures c in g.nodes[ParentId(g.nodes[c].item.value.row)].children
    {
      var e := g.nodes[c].item.value;
      var p := ParentId(e.row);
      ItemOfIn(s, c);
      var k :| 0 <= k < |s| && s[k] == e;
      ChildIdsMembers(s, p, c);
      if p !in TouchOrder(s) {
        Untouched(s, p);
      }
    }
  }

  // ---------------------------------------------------------------------
  // The depth-first walk

  /** A node the top-level loop walks: it holds no row, or a row without `reference_id`. */
  ghost predicate RootCandidate(g: Grouping, u: string)
    requires u in g.nodes
  {
    g.nodes[u].item.None? || !HasParent(g.nodes[u].item.value.row)
  }

  /**
   * The ids on the way from a node the top-level loop walks down to the
   * node being walked: each is a child of the one before.
   */
  ghost predicate Chain(g: Grouping, ch: seq<string>)
  {
    |ch| >= 1 && Distinct(ch) &&
    (forall k :: 0 <= k < |ch| ==> ch[k] in g.nodes) &&
    RootCandidate(g, ch[0]) &&
    (forall k :: 1 <= k < |ch| ==> ChildOf(g, ch[k], ch[k - 1]))
  }

  lemma {:induction false} DistinctLength(s: seq<string>, keys: set<string>)
    requires Distinct(s) && forall k :: 0 <= k < |s| ==> s[k] in keys
    ensures |s| <= |keys|
  {
    if s != [] {
      var t := s[..|s| - 1];
      var x := s[|s| - 1];
      assert forall k :: 0 <= k < |t| ==> t[k] in keys - {x} by {
        forall k | 0 <= k < |t|
          ensures t[k] in keys - {x}
        {
          assert t[k] == s[k];
        }
      }
      DistinctLength(t, keys - {x});
    }
  }

  /**
   * A child of the last node of a chain is not already on it: a walk never
   * revisits a node, whatever cycles the `reference_id`s form. Hence the
   * walk ends.
   */
  lemma ExtendChain(g: Grouping, ch: seq<string>, c: string)
    requires Chain(g, ch) && ChildOf(g, c, ch[|ch| - 1])
    ensures Chain(g, ch + [c])
    ensures |ch| < |g.nodes.Keys|
  {
    var ext := ch + [c];
    forall i, j | 0 <= i < j < |ext|
      ensures ext[i] != ext[j]
    {
      if 0 < i && j == |ch| {
        assert ChildOf(g, ch[i], ch[i - 1]);
      }
    }
    assert forall k :: 0 <= k < |ext| ==> ext[k] in g.nodes.Keys;
    DistinctLength(ext, g.nodes.Keys);
  }

  /**
   * What `sortTransactionByRelation` writes for the last node of `chain`:
   * nothing for a node without a row, else its row followed by what it
   * writes for each child in turn.
   */
  ghost function Subtree(g: Grouping, chain: seq<string>): seq<Entry>
    requires Chain(g, chain)
    decreases |g.nodes.Keys| - |chain|, 1, 0
  {
    var node := g.nodes[chain[|chain| - 1]];
    if node.item.None? then [] else [node.item.value] + Subtrees(g, chain, node.children)
  }

  /** What the walk writes for the children `cs` of the last node of `chain`, in turn. */
  ghost function Subtrees(g: Grouping, chain: seq<string>, cs: seq<string>): seq<Entry>
    requires Chain(g, chain)
    decreases |g.nodes.Keys| - |chain|, 0, |cs|
  {
    if cs == [] then []
    else
      var c := cs[|cs| - 1];
      if ChildOf(g, c, chain[|chain| - 1]) then
        ExtendChain(g, chain, c);
        Subtrees(g, chain, cs[..|cs| - 1]) + Subtree(g, chain + [c])
      else Subtrees(g, chain, cs[..|cs| - 1])
  }

  /** What the top-level loop writes for the key `id`: nothing when its row has a `reference_id`. */
  ghost function Top(g: Grouping, id: string): seq<Entry>
    requires id in g.nodes
  {
    if RootCandidate(g, id) then Subtree(g, [id]) else []
  }

  /** What the top-level loop writes for the keys `ids`, in turn. */
  ghost function Listing(g: Grouping, ids: seq<string>): seq<Entry>
    requires forall id | id in ids :: id in g.nodes
  {
    if ids == [] then [] else Listing(g, ids[..|ids| - 1]) + Top(g, ids[|ids| - 1])
  }

  /**
   * `sortTransactionByRelation($array_out, $val, $array_asc)`: a node with
   * a row (`org_key` set) writes the row, then recurses into each child in
   * the order listed. `$array_out[$val['org_key']] = $val` adds a new key at
   * the end, because no two rows share an `org_key` (see `OrderedOnce`).
   */
  method SortTransactionByRelation(out: seq<Entry>, val: Node, g: Grouping, ghost chain: seq<string>)
    returns (res: seq<Entry>)
    requires WellFormed(g) && Chain(g, chain) && val == g.nodes[chain[|chain| - 1]]
    ensures res == out + Subtree(g, chain)
    decreases |g.nodes.Keys| - |chain|
  {
    res := out;
    if val.item.Some? {
      res := res + [val.item.value];
      ghost var head := res;
      for i := 0 to |val.children|
        invariant res == head + Subtrees(g, chain, val.children[..i])
      {
        var id := val.children[i];
        ListedChild(g, chain[|chain| - 1], i);
        SubtreesStep(g, chain, val.children, i);
        res := SortTransactionByRelation(res, g.nodes[id], g, chain + [id]);
        Assoc(head, Subtrees(g, chain, val.children[..i]), Subtree(g, chain + [id]));
      }
      assert val.children[..|val.children|] == val.children;
      SubtreeUnfold(g, chain);
      Assoc(out, [val.item.value], Subtrees(g, chain, val.children));
    } else {
      AppendNothing(out);
    }
  }

  /** Every id listed as a child of `p` names `p` as its parent. */
  lemma ListedChild(g: Grouping, p: string, i: int)
    requires WellFormed(g) && p in g.nodes && 0 <= i < |g.nodes[p].children|
    ensures ChildOf(g, g.nodes[p].children[i], p)
  {
    assert g.nodes[p].children[i] in g.nodes[p].children;
  }

  /** The walk of a node holding a row: its row, then the walks of its children. */
  lemma SubtreeUnfold(g: Grouping, chain: seq<string>)
    requires Chain(g, chain)
    ensures var node := g.nodes[chain[|chain| - 1]];
      Subtree(g, chain) == if node.item.None? then [] else [node.item.value] + Subtrees(g, chain, node.children)
  {
  }

  lemma Assoc(a: seq<Entry>, b: seq<Entry>, c: seq<Entry>)
    ensures a + b + c == a + (b + c)
  {
  }

  lemma SubtreesStep(g: Grouping, chain: seq<string>, cs: seq<string>, i: int)
    requires Chain(g, chain) && 0 <= i < |cs| && ChildOf(g, cs[i], chain[|chain| - 1])
    ensures Chain(g, chain + [cs[i]]) && |chain| < |g.nodes.Keys|
    ensures Subtrees(g, chain, cs[..i + 1]) == Subtrees(g, chain, cs[..i]) + Subtree(g, chain + [cs[i]])
  {
    ExtendChain(g, chain, cs[i]);
    assert cs[..i + 1][..i] == cs[..i];
  }

  lemma ListingStep(g: Grouping, ids: seq<string>, i: int)
    requires 0 <= i < |ids| && forall id | id in ids :: id in g.nodes
    ensures Listing(g, ids[..i + 1]) == Listing(g, ids[..i]) + Top(g, ids[i])
  {
    assert ids[..i + 1][..i] == ids[..i];
  }

  /** The top-level loop over `$array_asc`, skipping rows that have a `reference_id`. */
  method Emit(g: Grouping) returns (out: seq<Entry>)
    requires WellFormed(g)
    ensures out == Listing(g, g.order)
  {
    out := [];
    for i := 0 to |g.order|
      invariant out == Listing(g, g.order[..i])
    {
      var val := g.nodes[g.order[i]];
      ListingStep(g, g.order, i);
      if val.item.Some? && HasParent(val.item.value.row) {
        AppendNothing(out);
        continue;
      }
      out := SortTransactionByRelation(out, val, g, [g.order[i]]);
    }
    assert g.order[..|g.order|] == g.order;
  }

  // ---------------------------------------------------------------------
  // Chains are determined by their last node

  lemma ChainPrefix(g: Grouping, ch: seq<string>, k: int)
    requires Chain(g, ch) && 1 <= k <= |ch|
    ensures Chain(g, ch[..k])
  {
    var p := ch[..k];
    forall i | 1 <= i < |p|
      ensures ChildOf(g, p[i], p[i - 1])
    {
      assert p[i] == ch[i] && p[i - 1] == ch[i - 1];
    }
  }

  /** Below the first node of a chain, every node holds a row naming the node before. */
  lemma ChainTail(g: Grouping, ch: seq<string>)
    requires Chain(g, ch)
    ensures |ch| > 1 ==> ChildOf(g, ch[|ch| - 1], ch[|ch| - 2]) && !RootCandidate(g, ch[|ch| - 1])
  {
  }

  /** Two chains that end at the same node are the same chain. */
  lemma {:induction false} ChainUnique(g: Grouping, a: seq<string>, b: seq<string>)
    requires WellFormed(g) && Chain(g, a) && Chain(g, b) && a[|a| - 1] == b[|b| - 1]
    ensures a == b
    decreases |a|
  {
    var n, m := |a|, |b|;
    ChainTail(g, a);
    ChainTail(g, b);
    if n > 1 && m > 1 {
      ChainPrefix(g, a, n - 1);
      ChainPrefix(g, b, m - 1);
      ChainUnique(g, a[..n - 1], b[..m - 1]);
      assert a == a[..n - 1] + [a[n - 1]];
      assert b == b[..m - 1] + [b[m - 1]];
    }
  }

  /** Some chain through `chain` ends at `u`: the walk of `chain`'s last node reaches `u`. */
  ghost predicate BelowId(g: Grouping, chain: seq<string>, u: string)
  {
    exists ch :: Chain(g, ch) && chain <= ch && ch[|ch| - 1] == u
  }

  /** `u` lies below the child `c` of `chain`'s last node. */
  ghost predicate BelowVia(g: Grouping, chain: seq<string>, c: string, u: string)
  {
    BelowId(g, chain + [c], u)
  }

  /** `u` lies below the key `id` that the top-level loop walks. */
  ghost predicate BelowRoot(g: Grouping, id: string, u: string)
  {
    id in g.nodes && g.nodes[id].item.Some? && BelowId(g, [id], u)
  }

  lemma BelowUnique(g: Grouping, p1: seq<string>, p2: seq<string>, u: string)
    requires WellFormed(g) && BelowId(g, p1, u) && BelowId(g, p2, u) && |p1| == |p2|
    ensures p1 == p2
  {
    var ch1 :| Chain(g, ch1) && p1 <= ch1 && ch1[|ch1| - 1] == u;
    var ch2 :| Chain(g, ch2) && p2 <= ch2 && ch2[|ch2| - 1] == u;
    ChainUnique(g, ch1, ch2);
  }

  lemma BelowSelf(g: Grouping, chain: seq<string>)
    requires Chain(g, chain)
    ensures BelowId(g, chain, chain[|chain| - 1])
  {
    assert chain <= chain;
  }

  lemma BelowViaBelow(g: Grouping, chain: seq<string>, c: string, u: string)
    requires BelowVia(g, chain, c, u)
    ensures BelowId(g, chain, u)
  {
    var ch :| Chain(g, ch) && chain + [c] <= ch && ch[|ch| - 1] == u;
    assert chain <= ch;
  }

  /** The row a node holds. */
  ghost predicate IsItem(g: Grouping, x: Entry)
  {
    Uid(x.row) in g.nodes && g.nodes[Uid(x.row)].item == Some(x)
  }

  // ---------------------------------------------------------------------
  // What the walk writes: rows of the grouping, each below where it was written

  lemma {:induction false} SubtreeItems(g: Grouping, chain: seq<string>)
    requires WellFormed(g) && Chain(g, chain)
    ensures forall x | x in Subtree(g, chain) :: IsItem(g, x) && BelowId(g, chain, Uid(x.row))
    decreases |g.nodes.Keys| - |chain|, 1, 0
  {
    var node := g.nodes[chain[|chain| - 1]];
    if node.item.Some? {
      var cs := node.children;
      SubtreesItems(g, chain, cs);
      BelowSelf(g, chain);
      forall x | x in Subtrees(g, chain, cs)
        ensures BelowId(g, chain, Uid(x.row))
      {
        var k :| 0 <= k < |cs| && BelowVia(g, chain, cs[k], Uid(x.row));
        BelowViaBelow(g, chain, cs[k], Uid(x.row));
      }
    }
  }

  lemma {:induction false} SubtreesItems(g: Grouping, chain: seq<string>, cs: seq<string>)
    requires WellFormed(g) && Chain(g, chain)
    ensures forall x | x in Subtrees(g, chain, cs) ::
      IsItem(g, x) && exists k :: 0 <= k < |cs| && BelowVia(g, chain, cs[k], Uid(x.row))
    decreases |g.nodes.Keys| - |chain|, 0, |cs|
  {
    if cs != [] {
      var n := |cs| - 1;
      var c := cs[n];
      var last := SubtreesSnoc(g, chain, cs);
      SubtreesItems(g, chain, cs[..n]);
      if ChildOf(g, c, chain[|chain| - 1]) {
        SubtreeItems(g, chain + [c]);
      }
      forall x | x in Subtrees(g, chain, cs)
        ensures IsItem(g, x) && exists k :: 0 <= k < |cs| && BelowVia(g, chain, cs[k], Uid(x.row))
      {
        if x in Subtrees(g, chain, cs[..n]) {
          var k :| 0 <= k < n && BelowVia(g, chain, cs[..n][k], Uid(x.row));
          BelowEarlier(g, chain, cs, k, Uid(x.row));
        } else {
          assert x in last;
          assert 0 <= n < |cs| && BelowVia(g, chain, cs[n], Uid(x.row));
        }
      }
    }
  }

  lemma RootEarlier(g: Grouping, ids: seq<string>, k: int, u: string)
    requires 0 <= k < |ids| - 1 && BelowRoot(g, ids[..|ids| - 1][k], u)
    ensures exists i :: 0 <= i < |ids| && BelowRoot(g, ids[i], u)
  {
    assert ids[k] == ids[..|ids| - 1][k];
    assert 0 <= k < |ids| && BelowRoot(g, ids[k], u);
  }

  lemma BelowEarlier(g: Grouping, chain: seq<string>, cs: seq<string>, k: int, u: string)
    requires 0 <= k < |cs| - 1 && BelowVia(g, chain, cs[..|cs| - 1][k], u)
    ensures exists i :: 0 <= i < |cs| && BelowVia(g, chain, cs[i], u)
  {
    assert cs[k] == cs[..|cs| - 1][k];
    assert 0 <= k < |cs| && BelowVia(g, chain, cs[k], u);
  }

  lemma {:induction false} ListingItems(g: Grouping, ids: seq<string>)
    requires WellFormed(g) && forall id | id in ids :: id in g.nodes
    ensures forall x | x in Listing(g, ids) ::
      IsItem(g, x) && exists k :: 0 <= k < |ids| && BelowRoot(g, ids[k], Uid(x.row))
  {
    if ids != [] {
      var n := |ids| - 1;
      var id := ids[n];
      ListingItems(g, ids[..n]);
      if RootCandidate(g, id) {
        SubtreeItems(g, [id]);
      }
      forall x | x in Listing(g, ids)
        ensures IsItem(g, x) && exists k :: 0 <= k < |ids| && BelowRoot(g, ids[k], Uid(x.row))
      {
        if x in Listing(g, ids[..n]) {
          var k :| 0 <= k < n && BelowRoot(g, ids[..n][k], Uid(x.row));
          RootEarlier(g, ids, k, Uid(x.row));
        } else {
          assert 0 <= n < |ids| && BelowRoot(g, ids[n], Uid(x.row));
        }
      }
    }
  }

  // ---------------------------------------------------------------------
  // Each row is written at most once

  /** No `unique_id` occurs in both lists. */
  ghost predicate Apart(a: seq<Entry>, b: seq<Entry>)
  {
    forall i, j :: 0 <= i < |a| && 0 <= j < |b| ==> Uid(a[i].row) != Uid(b[j].row)
  }

  lemma DistinctUidsAppend(a: seq<Entry>, b: seq<Entry>)
    requires DistinctUids(a) && DistinctUids(b) && Apart(a, b)
    ensures DistinctUids(a + b)
  {
    var ab := a + b;
    forall i, j | 0 <= i < j < |ab|
      ensures Uid(ab[i].row) != Uid(ab[j].row)
    {
      if j < |a| {
        assert ab[i] == a[i] && ab[j] == a[j];
      } else if i >= |a| {
        assert ab[i] == b[i - |a|] && ab[j] == b[j - |a|];
      } else {
        assert ab[i] == a[i] && ab[j] == b[j - |a|];
      }
    }
  }

  /** A walk never comes back to the node it started from. */
  lemma BelowStrict(g: Grouping, chain: seq<string>, c: string, u: string)
    requires WellFormed(g) && Chain(g, chain) && BelowVia(g, chain, c, u)
    ensures u != chain[|chain| - 1]
  {
    var ch :| Chain(g, ch) && chain + [c] <= ch && ch[|ch| - 1] == u;
    if u == chain[|chain| - 1] {
      ChainUnique(g, chain, ch);
    }
  }

  lemma ViaUnique(g: Grouping, chain: seq<string>, c1: string, c2: string, u: string)
    requires WellFormed(g) && BelowVia(g, chain, c1, u) && BelowVia(g, chain, c2, u)
    ensures c1 == c2
  {
    BelowUnique(g, chain + [c1], chain + [c2], u);
    assert (chain + [c1])[|chain|] == c1 && (chain + [c2])[|chain|] == c2;
  }

  lemma RootUnique(g: Grouping, id1: string, id2: string, u: string)
    requires WellFormed(g) && BelowRoot(g, id1, u) && BelowRoot(g, id2, u)
    ensures id1 == id2
  {
    BelowUnique(g, [id1], [id2], u);
    assert [id1][0] == id1 && [id2][0] == id2;
  }

  lemma {:induction false} SubtreeDistinct(g: Grouping, chain: seq<string>)
    requires WellFormed(g) && Chain(g, chain)
    ensures DistinctUids(Subtree(g, chain))
    decreases |g.nodes.Keys| - |chain|, 1, 0
  {
    var u := chain[|chain| - 1];
    var node := g.nodes[u];
    if node.item.Some? {
      var x := node.item.value;
      var cs := node.children;
      var rest := Subtrees(g, chain, cs);
      SubtreesDistinct(g, chain, cs);
      SubtreesItems(g, chain, cs);
      forall j | 0 <= j < |rest|
        ensures Uid(x.row) != Uid(rest[j].row)
      {
        var k :| 0 <= k < |cs| && BelowVia(g, chain, cs[k], Uid(rest[j].row));
        BelowStrict(g, chain, cs[k], Uid(rest[j].row));
      }
      DistinctUidsAppend([x], rest);
    }
  }

  lemma {:induction false} SubtreesDistinct(g: Grouping, chain: seq<string>, cs: seq<string>)
    requires WellFormed(g) && Chain(g, chain) && Distinct(cs)
    ensures DistinctUids(Subtrees(g, chain, cs))
    decreases |g.nodes.Keys| - |chain|, 0, |cs|
  {
    if cs != [] {
      var n := |cs| - 1;
      var c := cs[n];
      var a := Subtrees(g, chain, cs[..n]);
      var last := SubtreesSnoc(g, chain, cs);
      SubtreesDistinct(g, chain, cs[..n]);
      if ChildOf(g, c, chain[|chain| - 1]) {
        SubtreeDistinct(g, chain + [c]);
        SubtreesApart(g, chain, cs);
      }
      DistinctUidsAppend(a, last);
    }
  }

  /** The walk of the last child shares no node with the walks of the children before it. */
  lemma SubtreesApart(g: Grouping, chain: seq<string>, cs: seq<string>)
    requires WellFormed(g) && Chain(g, chain) && Distinct(cs) && cs != []
    requires Chain(g, chain + [cs[|cs| - 1]])
    ensures Apart(Subtrees(g, chain, cs[..|cs| - 1]), Subtree(g, chain + [cs[|cs| - 1]]))
  {
    var n := |cs| - 1;
    var c := cs[n];
    var a := Subtrees(g, chain, cs[..n]);
    var b := Subtree(g, chain + [c]);
    SubtreesItems(g, chain, cs[..n]);
    SubtreeItems(g, chain + [c]);
    assert c !in cs[..n] by {
      forall k | 0 <= k < n
        ensures cs[..n][k] != c
      {
        assert cs[..n][k] == cs[k];
      }
    }
    ChildWalksApart(g, chain, cs[..n], c, a, b);
  }

  lemma ChildWalksApart(g: Grouping, chain: seq<string>, pre: seq<string>, c: string, a: seq<Entry>, b: seq<Entry>)
    requires WellFormed(g) && c !in pre
    requires forall x | x in a :: exists k :: 0 <= k < |pre| && BelowVia(g, chain, pre[k], Uid(x.row))
    requires forall y | y in b :: BelowId(g, chain + [c], Uid(y.row))
    ensures Apart(a, b)
  {
    forall i, j | 0 <= i < |a| && 0 <= j < |b|
      ensures Uid(a[i].row) != Uid(b[j].row)
    {
      assert a[i] in a && b[j] in b;
      EarlierChildApart(g, chain, pre, c, Uid(a[i].row), Uid(b[j].row));
    }
  }

  /** A node below an earlier child is not below a child not among them. */
  lemma EarlierChildApart(g: Grouping, chain: seq<string>, pre: seq<string>, c: string, u: string, v: string)
    requires WellFormed(g) && c !in pre
    requires exists k :: 0 <= k < |pre| && BelowVia(g, chain, pre[k], u)
    requires BelowVia(g, chain, c, v)
    ensures u != v
  {
    var k :| 0 <= k < |pre| && BelowVia(g, chain, pre[k], u);
    if u == v {
      ViaUnique(g, chain, pre[k], c, u);
    }
  }

  lemma {:induction false} ListingDistinct(g: Grouping, ids: seq<string>)
    requires WellFormed(g) && Distinct(ids) && forall id | id in ids :: id in g.nodes
    ensures DistinctUids(Listing(g, ids))
  {
    if ids != [] {
      var n := |ids| - 1;
      var id := ids[n];
      var a := Listing(g, ids[..n]);
      var b := Top(g, id);
      ListingDistinct(g, ids[..n]);
      ListingItems(g, ids[..n]);
      if RootCandidate(g, id) {
        SubtreeDistinct(g, [id]);
        SubtreeItems(g, [id]);
        assert id !in ids[..n] by {
          forall k | 0 <= k < n
            ensures ids[..n][k] != id
          {
            assert ids[..n][k] == ids[k];
          }
        }
        forall i, j | 0 <= i < |a| && 0 <= j < |b|
          ensures Uid(a[i].row) != Uid(b[j].row)
        {
          assert a[i] in a && b[j] in b;
          EarlierRootApart(g, ids[..n], id, Uid(a[i].row), Uid(b[j].row));
        }
      }
      DistinctUidsAppend(a, b);
    }
  }

  /** A node below one of the keys `pre` is not below a key not among them. */
  lemma EarlierRootApart(g: Grouping, pre: seq<string>, id: string, u: string, v: string)
    requires WellFormed(g) && id !in pre
    requires exists k :: 0 <= k < |pre| && BelowRoot(g, pre[k], u)
    requires BelowId(g, [id], v)
    ensures u != v
  {
    var k :| 0 <= k < |pre| && BelowRoot(g, pre[k], u);
    assert [pre[k]] != [id] by {
      assert pre[k] in pre && [pre[k]][0] == pre[k];
    }
    if u == v {
      BelowUnique(g, [pre[k]], [id], u);
    }
  }

  // ---------------------------------------------------------------------
  // A row is written after the row it names as parent

  /** Row `i` of `s` has no parent, or its parent's row comes earlier in `s`. */
  ghost predicate ParentBefore(s: seq<Entry>, i: int)
    requires 0 <= i < |s|
  {
    !HasParent(s[i].row) || exists j :: 0 <= j < i && Uid(s[j].row) == ParentId(s[i].row)
  }

  lemma ParentBeforeLeft(a: seq<Entry>, b: seq<Entry>, i: int)
    requires 0 <= i < |a| && ParentBefore(a, i)
    ensures ParentBefore(a + b, i)
  {
    if HasParent(a[i].row) {
      var j :| 0 <= j < i && Uid(a[j].row) == ParentId(a[i].row);
      assert (a + b)[j] == a[j];
    }
  }

  lemma ParentBeforeRight(a: seq<Entry>, b: seq<Entry>, i: int)
    requires 0 <= i < |b| && ParentBefore(b, i)
    ensures ParentBefore(a + b, |a| + i)
  {
    if HasParent(b[i].row) {
      var j :| 0 <= j < i && Uid(b[j].row) == ParentId(b[i].row);
      assert (a + b)[|a| + j] == b[j];
    }
  }

  lemma {:induction false} SubtreeParents(g: Grouping, chain: seq<string>)
    requires WellFormed(g) && Chain(g, chain)
    ensures forall i :: 1 <= i < |Subtree(g, chain)| ==> ParentBefore(Subtree(g, chain), i)
    decreases |g.nodes.Keys| - |chain|, 1, 0
  {
    var u := chain[|chain| - 1];
    var node := g.nodes[u];
    if node.item.Some? {
      var x := node.item.value;
      var rest := Subtrees(g, chain, node.children);
      SubtreesParents(g, chain, node.children);
      SubtreeUnfold(g, chain);
      HeadGlue(x, rest);
    }
  }

  /** A row followed by rows each written after its parent or naming that row. */
  lemma HeadGlue(x: Entry, rest: seq<Entry>)
    requires forall i :: 0 <= i < |rest| ==> ParentBefore(rest, i) || ParentId(rest[i].row) == Uid(x.row)
    ensures forall i :: 1 <= i < |[x] + rest| ==> ParentBefore([x] + rest, i)
  {
    var s := [x] + rest;
    forall i | 1 <= i < |s|
      ensures ParentBefore(s, i)
    {
      if ParentBefore(rest, i - 1) {
        ParentBeforeRight([x], rest, i - 1);
      } else {
        assert Uid(s[0].row) == ParentId(s[i].row);
      }
    }
  }

  lemma {:induction false} SubtreesParents(g: Grouping, chain: seq<string>, cs: seq<string>)
    requires WellFormed(g) && Chain(g, chain)
    ensures forall i :: 0 <= i < |Subtrees(g, chain, cs)| ==>
      ParentBefore(Subtrees(g, chain, cs), i) || ParentId(Subtrees(g, chain, cs)[i].row) == chain[|chain| - 1]
    decreases |g.nodes.Keys| - |chain|, 0, |cs|
  {
    if cs != [] {
      var n := |cs| - 1;
      var c := cs[n];
      var a := Subtrees(g, chain, cs[..n]);
      var b := SubtreesSnoc(g, chain, cs);
      SubtreesParents(g, chain, cs[..n]);
      if !ChildOf(g, c, chain[|chain| - 1]) {
        AppendNothing(a);
        return;
      }
      SubtreeParents(g, chain + [c]);
      SubtreeUnfold(g, chain + [c]);
      assert b[0] == g.nodes[c].item.value;
      ParentsGlue(a, b, chain[|chain| - 1]);
    }
  }

  /** A walk of children followed by the walk of one more child whose row names `p`. */
  lemma ParentsGlue(a: seq<Entry>, b: seq<Entry>, p: string)
    requires forall i :: 0 <= i < |a| ==> ParentBefore(a, i) || ParentId(a[i].row) == p
    requires b != [] && ParentId(b[0].row) == p
    requires forall i :: 1 <= i < |b| ==> ParentBefore(b, i)
    ensures forall i :: 0 <= i < |a + b| ==> ParentBefore(a + b, i) || ParentId((a + b)[i].row) == p
  {
    forall i | 0 <= i < |a + b|
      ensures ParentBefore(a + b, i) || ParentId((a + b)[i].row) == p
    {
      if i < |a| {
        if ParentBefore(a, i) {
          ParentBeforeLeft(a, b, i);
        } else {
          assert (a + b)[i] == a[i];
        }
      } else if i > |a| {
        ParentBeforeRight(a, b, i - |a|);
      } else {
        assert (a + b)[i] == b[0];
      }
    }
  }

  lemma {:induction false} ListingParents(g: Grouping, ids: seq<string>)
    requires WellFormed(g) && forall id | id in ids :: id in g.nodes
    ensures forall i :: 0 <= i < |Listing(g, ids)| ==> ParentBefore(Listing(g, ids), i)
  {
    if ids != [] {
      var n := |ids| - 1;
      var id := ids[n];
      var a := Listing(g, ids[..n]);
      var b := Top(g, id);
      ListingParents(g, ids[..n]);
      if RootCandidate(g, id) {
        SubtreeParents(g, [id]);
      }
      forall i | 0 <= i < |a + b|
        ensures ParentBefore(a + b, i)
      {
        if i < |a| {
          ParentBeforeLeft(a, b, i);
        } else {
          ParentBeforeRight(a, b, i - |a|);
        }
      }
    }
  }

  // ---------------------------------------------------------------------
  // Every row below a row the top-level loop walks is written

  lemma SubtreesContains(g: Grouping, chain: seq<string>, cs: seq<string>, k: int)
    requires Chain(g, chain) && 0 <= k < |cs| && ChildOf(g, cs[k], chain[|chain| - 1])
    ensures Chain(g, chain + [cs[k]])
    ensures forall x | x in Subtree(g, chain + [cs[k]]) :: x in Subtrees(g, chain, cs)
  {
    var post := SubtreesSegment(g, chain, cs, k);
    InMiddle(Subtrees(g, chain, cs[..k]), Subtree(g, chain + [cs[k]]), post);
  }

  lemma InMiddle(a: seq<Entry>, m: seq<Entry>, b: seq<Entry>)
    ensures forall x | x in m :: x in a + m + b
  {
  }

  /** The row at the end of a chain is written by the walk of any earlier node of the chain that holds a row. */
  lemma SubtreeReaches(g: Grouping, ch: seq<string>, k: int)
    requires WellFormed(g) && Chain(g, ch) && 1 <= k <= |ch|
    requires g.nodes[ch[0]].item.Some? && g.nodes[ch[|ch| - 1]].item.Some?
    ensures Chain(g, ch[..k])
    ensures g.nodes[ch[|ch| - 1]].item.value in Subtree(g, ch[..k])
  {
    var pre, post := SubtreeSegment(g, ch, k);
    SubtreeUnfold(g, ch);
    InMiddle(pre, Subtree(g, ch), post);
  }

  lemma ListingContains(g: Grouping, ids: seq<string>, k: int)
    requires (forall id | id in ids :: id in g.nodes) && 0 <= k < |ids|
    requires RootCandidate(g, ids[k])
    ensures forall x | x in Subtree(g, [ids[k]]) :: x in Listing(g, ids)
  {
    var pre, post := ListingSegment(g, ids, k);
    InMiddle(pre, Subtree(g, [ids[k]]), post);
  }

  // ---------------------------------------------------------------------
  // order(): from the store's list to the listing

  /** The store's list with each row's list key. */
  function Indexed(ts: seq<Row>): (r: seq<Entry>)
    ensures |r| == |ts| && forall k :: 0 <= k < |ts| ==> r[k] == Entry(k, ts[k])
  {
    seq(|ts|, k requires 0 <= k < |ts| => Entry(k, ts[k]))
  }

  /** The `uasort` comparator's key, read from the row. */
  function ByRow(key: Row -> string): Entry -> string
  {
    (e: Entry) => key(e.row)
  }

  lemma {:induction false} NoRepeatCount(xs: seq<Entry>, x: Entry)
    requires forall i, j :: 0 <= i < j < |xs| ==> xs[i] != xs[j]
    ensures multiset(xs)[x] <= 1
  {
    if xs != [] {
      var t := xs[..|xs| - 1];
      assert xs == t + [xs[|xs| - 1]];
      NoRepeatCount(t, x);
      if x == xs[|xs| - 1] {
        assert x !in t;
      }
    }
  }

  /** The rows of the store's list sorted by `key`, as `uasort` leaves them. */
  function SortedRows(ts: seq<Row>, key: Row -> string): seq<Entry>
  {
    StableSortBy(Indexed(ts), ByRow(key))
  }

  /** The sorted list holds exactly the store's rows, each once, so its ids are unique too. */
  lemma SortedEntries(ts: seq<Row>, key: Row -> string)
    requires DistinctRowUids(ts)
    ensures forall e :: e in SortedRows(ts, key) <==> e in Indexed(ts)
    ensures DistinctUids(SortedRows(ts, key))
  {
    var xs := Indexed(ts);
    var s := SortedRows(ts, key);
    assert multiset(s) == multiset(xs);
    forall e ensures e in s <==> e in xs {
      assert e in s <==> e in multiset(s);
      assert e in xs <==> e in multiset(xs);
    }
    forall i, j | 0 <= i < j < |s|
      ensures Uid(s[i].row) != Uid(s[j].row)
    {
      if s[i] == s[j] {
        RepeatCount(s, i, j);
        NoRepeatCount(xs, s[i]);
      }
      IndexedUids(ts, s[i], s[j]);
    }
  }

  /** An element found at two positions occurs at least twice. */
  lemma RepeatCount<T>(s: seq<T>, i: int, j: int)
    requires 0 <= i < j < |s| && s[i] == s[j]
    ensures multiset(s)[s[i]] >= 2
  {
    assert s == s[..j] + s[j..];
    assert s[i] in s[..j] && s[j] in s[j..];
    assert multiset(s)[s[i]] == multiset(s[..j])[s[i]] + multiset(s[j..])[s[i]];
  }

  /** Two different entries of the store's list have different ids. */
  lemma IndexedUids(ts: seq<Row>, x: Entry, y: Entry)
    requires DistinctRowUids(ts) && x in Indexed(ts) && y in Indexed(ts) && x != y
    ensures Uid(x.row) != Uid(y.row)
  {
    var a :| 0 <= a < |ts| && Indexed(ts)[a] == x;
    var b :| 0 <= b < |ts| && Indexed(ts)[b] == y;
    assert a != b;
  }

  /** `$array_asc` for the store's list `ts` sorted by `key`. */
  function TreeOf(ts: seq<Row>, key: Row -> string): Grouping
  {
    Pass(SortedRows(ts, key))
  }

  lemma TreeOfWellFormed(ts: seq<Row>, key: Row -> string)
    requires DistinctRowUids(ts)
    ensures WellFormed(TreeOf(ts, key))
  {
    SortedEntries(ts, key);
    PassWellFormed(SortedRows(ts, key));
  }

  /** What `order()` lists for the store's rows `ts` under the sort key `key`. */
  ghost function Ordered(ts: seq<Row>, key: Row -> string): seq<Entry>
    requires DistinctRowUids(ts)
  {
    TreeOfWellFormed(ts, key);
    Listing(TreeOf(ts, key), TreeOf(ts, key).order)
  }

  /** Row `k` of the store's list sits under its own id in `$array_asc`. */
  lemma TreeHoldsRow(ts: seq<Row>, key: Row -> string, k: int)
    requires DistinctRowUids(ts) && 0 <= k < |ts|
    ensures Uid(ts[k]) in TreeOf(ts, key).nodes
    ensures TreeOf(ts, key).nodes[Uid(ts[k])].item == Some(Entry(k, ts[k]))
  {
    var sorted := SortedRows(ts, key);
    SortedEntries(ts, key);
    PassContents(sorted);
    var e := Entry(k, ts[k]);
    assert Indexed(ts)[k] == e;
    assert e in sorted;
    var m :| 0 <= m < |sorted| && sorted[m] == e;
    ItemOfFound(sorted, m);
    if Uid(ts[k]) !in TouchOrder(sorted) {
      Untouched(sorted, Uid(ts[k]));
    }
  }

  /** Every listed row is a row of the store's list, under its own list key. */
  lemma OrderedRows(ts: seq<Row>, key: Row -> string)
    requires DistinctRowUids(ts)
    ensures forall x | x in Ordered(ts, key) :: x.orgKey < |ts| && x.row == ts[x.orgKey]
  {
    var g := TreeOf(ts, key);
    TreeOfWellFormed(ts, key);
    ListingItems(g, g.order);
    forall x | x in Ordered(ts, key)
      ensures x.orgKey < |ts| && x.row == ts[x.orgKey]
    {
      HeldRowIndexed(ts, key, x);
    }
  }

  /** A row held in the tree of the store's rows is a row of the list, under its own position. */
  lemma HeldRowIndexed(ts: seq<Row>, key: Row -> string, x: Entry)
    requires DistinctRowUids(ts) && IsItem(TreeOf(ts, key), x)
    ensures x.orgKey < |ts| && x.row == ts[x.orgKey]
  {
    var sorted := SortedRows(ts, key);
    SortedEntries(ts, key);
    PassContents(sorted);
    ItemOfIn(sorted, Uid(x.row));
    assert x in Indexed(ts);
    var k :| 0 <= k < |ts| && Indexed(ts)[k] == x;
  }

  /**
   * No row is listed twice: the listed ids are unique and so are the list
   * keys, which is why writing `$array_out[org_key]` only ever appends.
   */
  lemma OrderedOnce(ts: seq<Row>, key: Row -> string)
    requires DistinctRowUids(ts)
    ensures DistinctUids(Ordered(ts, key))
    ensures forall i, j :: 0 <= i < j < |Ordered(ts, key)| ==> Ordered(ts, key)[i].orgKey != Ordered(ts, key)[j].orgKey
  {
    var g := TreeOf(ts, key);
    TreeOfWellFormed(ts, key);
    ListingDistinct(g, g.order);
    OrderedRows(ts, key);
    var out := Ordered(ts, key);
    forall i, j | 0 <= i < j < |out|
      ensures out[i].orgKey != out[j].orgKey
    {
      assert out[i] in out && out[j] in out;
    }
  }

  /** Every listed row with a `reference_id` comes after the row it names. */
  lemma OrderedParentsFirst(ts: seq<Row>, key: Row -> string)
    requires DistinctRowUids(ts)
    ensures forall i :: 0 <= i < |Ordered(ts, key)| ==> ParentBefore(Ordered(ts, key), i)
  {
    var g := TreeOf(ts, key);
    TreeOfWellFormed(ts, key);
    ListingParents(g, g.order);
  }

  /**
   * A row whose `reference_id` names no row of the list is never listed,
   * and neither is anything below it.
   */
  lemma OrphansLeftOut(ts: seq<Row>, key: Row -> string)
    requires DistinctRowUids(ts)
    ensures forall i | 0 <= i < |Ordered(ts, key)| && HasParent(Ordered(ts, key)[i].row) ::
      exists k :: 0 <= k < |ts| && Uid(ts[k]) == ParentId(Ordered(ts, key)[i].row)
  {
    OrderedRows(ts, key);
    OrderedParentsFirst(ts, key);
    var out := Ordered(ts, key);
    forall i | 0 <= i < |out| && HasParent(out[i].row)
      ensures exists k :: 0 <= k < |ts| && Uid(ts[k]) == ParentId(out[i].row)
    {
      assert ParentBefore(out, i);
      var j :| 0 <= j < i && Uid(out[j].row) == ParentId(out[i].row);
      assert out[j] in out;
      assert Uid(ts[out[j].orgKey]) == ParentId(out[i].row);
    }
  }

  /** Every row without a `reference_id` is listed. */
  lemma OrderedRoots(ts: seq<Row>, key: Row -> string)
    requires DistinctRowUids(ts)
    ensures forall k | 0 <= k < |ts| && !HasParent(ts[k]) :: Entry(k, ts[k]) in Ordered(ts, key)
  {
    var g := TreeOf(ts, key);
    TreeOfWellFormed(ts, key);
    forall k | 0 <= k < |ts| && !HasParent(ts[k])
      ensures Entry(k, ts[k]) in Ordered(ts, key)
    {
      var u := Uid(ts[k]);
      TreeHoldsRow(ts, key, k);
      var r :| 0 <= r < |g.order| && g.order[r] == u;
      ListingContains(g, g.order, r);
    }
  }

  /** Every row whose `reference_id` names a listed row is listed too. */
  lemma OrderedChildren(ts: seq<Row>, key: Row -> string)
    requires DistinctRowUids(ts)
    ensures forall i, k | 0 <= i < |Ordered(ts, key)| && 0 <= k < |ts| &&
      HasParent(ts[k]) && ParentId(ts[k]) == Uid(Ordered(ts, key)[i].row) ::
      Entry(k, ts[k]) in Ordered(ts, key)
  {
    var g := TreeOf(ts, key);
    TreeOfWellFormed(ts, key);
    var out := Ordered(ts, key);
    ListingItems(g, g.order);
    forall i, k | 0 <= i < |out| && 0 <= k < |ts| && HasParent(ts[k]) && ParentId(ts[k]) == Uid(out[i].row)
      ensures Entry(k, ts[k]) in out
    {
      TreeHoldsRow(ts, key, k);
      assert out[i] in Listing(g, g.order);
      ChildListed(g, out[i], Uid(ts[k]), Entry(k, ts[k]));
    }
  }

  lemma ChildListed(g: Grouping, x: Entry, c: string, e: Entry)
    requires WellFormed(g) && x in Listing(g, g.order)
    requires c in g.nodes && g.nodes[c].item == Some(e) && HasParent(e.row) && ParentId(e.row) == Uid(x.row)
    ensures e in Listing(g, g.order)
  {
    var r, ch := ListedChain(g, x);
    ExtendChain(g, ch, c);
    var ext := ch + [c];
    SubtreeReaches(g, ext, 1);
    assert ext[..1] == [g.order[r]];
    ListingContains(g, g.order, r);
  }

  /**
   * `order()`'s listing: sort the store's rows by `key` (stable), build
   * `$array_asc`, then walk it. The list keys are the rows' positions in
   * `transactions`.
   */
  method Order(transactions: seq<Row>, key: Row -> string) returns (out: seq<Entry>)
    requires DistinctRowUids(transactions)
    ensures out == Ordered(transactions, key)
    ensures forall i :: 0 <= i < |out| ==> out[i].orgKey < |transactions| && out[i].row == transactions[out[i].orgKey]
    ensures forall i, j :: 0 <= i < j < |out| ==> out[i].orgKey != out[j].orgKey
    ensures forall i :: 0 <= i < |out| ==> ParentBefore(out, i)
    ensures forall k | 0 <= k < |transactions| && !HasParent(transactions[k]) :: Entry(k, transactions[k]) in out
    ensures forall i, k | 0 <= i < |out| && 0 <= k < |transactions| &&
      HasParent(transactions[k]) && ParentId(transactions[k]) == Uid(out[i].row) ::
      Entry(k, transactions[k]) in out
  {
    var sorted := StableSortBy(Indexed(transactions), ByRow(key));
    SortedEntries(transactions, key);
    PassWellFormed(sorted);
    var g := Group(sorted);
    out := Emit(g);
    OrderedRows(transactions, key);
    assert forall i :: 0 <= i < |out| ==> out[i] in out;
    OrderedOnce(transactions, key);
    OrderedParentsFirst(transactions, key);
    OrderedRoots(transactions, key);
    OrderedChildren(transactions, key);
  }

  // ---------------------------------------------------------------------
  // Order of siblings and of roots

  /** The rows of `s` that `f` picks, in their order in `s`. */
  function Filter(s: seq<Entry>, f: Entry -> bool): (r: seq<Entry>)
    ensures |r| <= |s|
    ensures forall x | x in r :: x in s && f(x)
  {
    if s == [] then [] else Filter(s[..|s| - 1], f) + (if f(s[|s| - 1]) then [s[|s| - 1]] else [])
  }

  lemma {:induction false} FilterAppend(a: seq<Entry>, b: seq<Entry>, f: Entry -> bool)
    ensures Filter(a + b, f) == Filter(a, f) + Filter(b, f)
    decreases |b|
  {
    if b != [] {
      var n := |b| - 1;
      assert (a + b)[..|a + b| - 1] == a + b[..n];
      FilterAppend(a, b[..n], f);
    } else {
      assert a + b == a;
    }
  }

  lemma {:induction false} FilterNone(s: seq<Entry>, f: Entry -> bool)
    requires forall x | x in s :: !f(x)
    ensures Filter(s, f) == []
  {
    if s != [] {
      assert forall x | x in s[..|s| - 1] :: x in s;
      FilterNone(s[..|s| - 1], f);
    }
  }

  /** A row without `reference_id`. */
  function IsRoot(e: Entry): bool
  {
    !HasParent(e.row)
  }

  /** The rows whose `reference_id` is `p`. */
  function ChildOfId(p: string): Entry -> bool
  {
    (e: Entry) => HasParent(e.row) && ParentId(e.row) == p
  }

  /** The row `e` when it names `p` as parent, else nothing. */
  function KidRow(e: Entry, p: string): seq<Entry>
  {
    if HasParent(e.row) && ParentId(e.row) == p then [e] else []
  }

  lemma Regroup(x: seq<Entry>, a: seq<Entry>, p: seq<Entry>, m: seq<Entry>, q: seq<Entry>, r: seq<Entry>)
    ensures x + (a + (p + m + q) + r) == (x + a + p) + m + (q + r)
  {
  }

  lemma Regroup5(a: seq<Entry>, p: seq<Entry>, m: seq<Entry>, q: seq<Entry>, r: seq<Entry>)
    ensures a + (p + m + q) + r == (a + p) + m + (q + r)
  {
  }

  /** The walk of some children of a node, one child more. */
  lemma SubtreesSnoc(g: Grouping, chain: seq<string>, cs: seq<string>) returns (last: seq<Entry>)
    requires Chain(g, chain) && cs != []
    ensures ChildOf(g, cs[|cs| - 1], chain[|chain| - 1]) ==>
      Chain(g, chain + [cs[|cs| - 1]]) && |chain| < |g.nodes.Keys| && last == Subtree(g, chain + [cs[|cs| - 1]])
    ensures !ChildOf(g, cs[|cs| - 1], chain[|chain| - 1]) ==> last == []
    ensures Subtrees(g, chain, cs) == Subtrees(g, chain, cs[..|cs| - 1]) + last
  {
    var c := cs[|cs| - 1];
    if ChildOf(g, c, chain[|chain| - 1]) {
      ExtendChain(g, chain, c);
      last := Subtree(g, chain + [c]);
    } else {
      last := [];
      AppendNothing(Subtrees(g, chain, cs[..|cs| - 1]));
    }
  }

  /** The walk of a child is a contiguous part of the walk of its parent's children. */
  lemma {:induction false} SubtreesSegment(g: Grouping, chain: seq<string>, cs: seq<string>, i: int)
    returns (post: seq<Entry>)
    requires Chain(g, chain) && 0 <= i < |cs| && ChildOf(g, cs[i], chain[|chain| - 1])
    ensures Chain(g, chain + [cs[i]])
    ensures Subtrees(g, chain, cs) == Subtrees(g, chain, cs[..i]) + Subtree(g, chain + [cs[i]]) + post
  {
    ExtendChain(g, chain, cs[i]);
    var n := |cs| - 1;
    var last := SubtreesSnoc(g, chain, cs);
    if i == n {
      post := [];
      AppendNothing(Subtrees(g, chain, cs[..n]) + last);
    } else {
      assert cs[..n][i] == cs[i] && cs[..n][..i] == cs[..i];
      var post' := SubtreesSegment(g, chain, cs[..n], i);
      post := post' + last;
      Regroup4(Subtrees(g, chain, cs[..i]), Subtree(g, chain + [cs[i]]), post', last);
    }
  }

  /** The walk of the last node of a chain is a contiguous part of the walk of any earlier node holding a row. */
  lemma {:induction false} SubtreeSegment(g: Grouping, ch: seq<string>, k: int)
    returns (pre: seq<Entry>, post: seq<Entry>)
    requires WellFormed(g) && Chain(g, ch) && 1 <= k <= |ch|
    requires g.nodes[ch[0]].item.Some?
    ensures Chain(g, ch[..k])
    ensures Subtree(g, ch[..k]) == pre + Subtree(g, ch) + post
    decreases |ch| - k
  {
    ChainPrefix(g, ch, k);
    var chain := ch[..k];
    if k == |ch| {
      assert chain == ch;
      pre, post := [], [];
      assert Subtree(g, ch) == pre + Subtree(g, ch) + post;
    } else {
      var i := ChainStep(g, ch, k);
      var pre1, post1 := SubtreeSegment(g, ch, k + 1);
      var pre0, post0 := SubtreeChild(g, chain, i);
      Nest(Subtree(g, chain), Subtree(g, chain + [ch[k]]), Subtree(g, ch), pre0, post0, pre1, post1);
      pre, post := pre0 + pre1, post1 + post0;
    }
  }

  /** Node `k` of a chain is listed among the children of node `k - 1`, at some index `i`. */
  lemma ChainStep(g: Grouping, ch: seq<string>, k: int) returns (i: int)
    requires WellFormed(g) && Chain(g, ch) && 1 <= k < |ch|
    requires g.nodes[ch[0]].item.Some?
    ensures g.nodes[ch[k - 1]].item.Some?
    ensures 0 <= i < |g.nodes[ch[k - 1]].children| && g.nodes[ch[k - 1]].children[i] == ch[k]
    ensures ChildOf(g, ch[k], ch[k - 1])
    ensures Chain(g, ch[..k]) && ch[..k][k - 1] == ch[k - 1] && ch[..k + 1] == ch[..k] + [ch[k]]
  {
    ChainPrefix(g, ch, k);
    var node := g.nodes[ch[k - 1]];
    if k > 1 {
      assert ChildOf(g, ch[k - 1], ch[k - 2]);
    }
    assert ChildOf(g, ch[k], ch[k - 1]);
    assert ch[k] in node.children;
    i :| 0 <= i < |node.children| && node.children[i] == ch[k];
    assert ch[..k + 1] == ch[..k] + [ch[k]];
  }

  /** The walk of a child is a contiguous part of the walk of its parent. */
  lemma SubtreeChild(g: Grouping, chain: seq<string>, i: int) returns (pre: seq<Entry>, post: seq<Entry>)
    requires Chain(g, chain) && g.nodes[chain[|chain| - 1]].item.Some?
    requires 0 <= i < |g.nodes[chain[|chain| - 1]].children|
    requires ChildOf(g, g.nodes[chain[|chain| - 1]].children[i], chain[|chain| - 1])
    ensures Chain(g, chain + [g.nodes[chain[|chain| - 1]].children[i]])
    ensures Subtree(g, chain) == pre + Subtree(g, chain + [g.nodes[chain[|chain| - 1]].children[i]]) + post
  {
    var node := g.nodes[chain[|chain| - 1]];
    SubtreeUnfold(g, chain);
    post := SubtreesSegment(g, chain, node.children, i);
    var a := Subtrees(g, chain, node.children[..i]);
    pre := [node.item.value] + a;
    Prepend([node.item.value], a, Subtree(g, chain + [node.children[i]]), post);
  }

  lemma Prepend(x: seq<Entry>, a: seq<Entry>, b: seq<Entry>, c: seq<Entry>)
    ensures x + (a + b + c) == (x + a) + b + c
  {
  }

  /** The walk of a key the top-level loop walks is a contiguous part of the listing. */
  lemma {:induction false} ListingSegment(g: Grouping, ids: seq<string>, r: int)
    returns (pre: seq<Entry>, post: seq<Entry>)
    requires (forall id | id in ids :: id in g.nodes) && 0 <= r < |ids|
    requires RootCandidate(g, ids[r])
    ensures Listing(g, ids) == pre + Subtree(g, [ids[r]]) + post
  {
    var n := |ids| - 1;
    assert Listing(g, ids) == Listing(g, ids[..n]) + Top(g, ids[n]);
    if r == n {
      pre, post := Listing(g, ids[..n]), [];
      assert Top(g, ids[n]) == Subtree(g, [ids[r]]);
      AppendNothing(pre + Subtree(g, [ids[r]]));
    } else {
      assert ids[..n][r] == ids[r];
      var post1;
      pre, post1 := ListingSegment(g, ids[..n], r);
      post := post1 + Top(g, ids[n]);
      Regroup4(pre, Subtree(g, [ids[r]]), post1, Top(g, ids[n]));
    }
  }

  lemma AppendNothing(a: seq<Entry>)
    ensures a + [] == a
  {
  }

  lemma Regroup4(a: seq<Entry>, m: seq<Entry>, q: seq<Entry>, r: seq<Entry>)
    ensures a + m + q + r == a + m + (q + r)
  {
  }

  /** The rows held under the ids `cs`, in that order (ids without a row contribute nothing). */
  ghost function ItemsOf(g: Grouping, cs: seq<string>): seq<Entry>
  {
    if cs == [] then []
    else
      var c := cs[|cs| - 1];
      ItemsOf(g, cs[..|cs| - 1]) + (if c in g.nodes && g.nodes[c].item.Some? then [g.nodes[c].item.value] else [])
  }

  lemma {:induction false} ItemsOfHas(g: Grouping, cs: seq<string>, c: string)
    requires c in cs && c in g.nodes && g.nodes[c].item.Some?
    ensures g.nodes[c].item.value in ItemsOf(g, cs)
  {
    var n := |cs| - 1;
    if cs[n] != c {
      assert c in cs[..n];
      ItemsOfHas(g, cs[..n], c);
    }
  }

  /** A row strictly below a child of `chain`'s last node does not name that node as parent. */
  lemma NotKidBelow(g: Grouping, chain: seq<string>, c: string, c2: string, y: Entry)
    requires WellFormed(g) && Chain(g, chain) && IsItem(g, y)
    requires BelowVia(g, chain + [c], c2, Uid(y.row))
    ensures !ChildOfId(chain[|chain| - 1])(y)
  {
    var ch :| Chain(g, ch) && chain + [c] + [c2] <= ch && ch[|ch| - 1] == Uid(y.row);
    if HasParent(y.row) && ParentId(y.row) == chain[|chain| - 1] {
      ExtendChain(g, chain, Uid(y.row));
      ChainUnique(g, ch, chain + [Uid(y.row)]);
    }
  }

  /** Among what the walk of a child `c` writes, only `c`'s own row names the parent. */
  lemma KidsOfChildWalk(g: Grouping, chain: seq<string>, c: string)
    requires WellFormed(g) && Chain(g, chain) && ChildOf(g, c, chain[|chain| - 1])
    requires Chain(g, chain + [c])
    ensures Filter(Subtree(g, chain + [c]), ChildOfId(chain[|chain| - 1])) == [g.nodes[c].item.value]
  {
    var p := chain[|chain| - 1];
    var x := g.nodes[c].item.value;
    var cs := g.nodes[c].children;
    var rest := Subtrees(g, chain + [c], cs);
    SubtreesItems(g, chain + [c], cs);
    forall y | y in rest
      ensures !ChildOfId(p)(y)
    {
      var k :| 0 <= k < |cs| && BelowVia(g, chain + [c], cs[k], Uid(y.row));
      NotKidBelow(g, chain, c, cs[k], y);
    }
    FilterNone(rest, ChildOfId(p));
    FilterAppend([x], rest, ChildOfId(p));
    assert Filter([x], ChildOfId(p)) == [x] by {
      assert [x][..0] == [];
    }
  }

  lemma {:induction false} KidsOfChildrenWalk(g: Grouping, chain: seq<string>, cs: seq<string>)
    requires WellFormed(g) && Chain(g, chain)
    requires forall k :: 0 <= k < |cs| ==> ChildOf(g, cs[k], chain[|chain| - 1])
    ensures Filter(Subtrees(g, chain, cs), ChildOfId(chain[|chain| - 1])) == ItemsOf(g, cs)
  {
    if cs != [] {
      var n := |cs| - 1;
      var c := cs[n];
      var last := SubtreesSnoc(g, chain, cs);
      KidsOfChildrenWalk(g, chain, cs[..n]);
      KidsOfChildWalk(g, chain, c);
      FilterAppend(Subtrees(g, chain, cs[..n]), Subtree(g, chain + [c]), ChildOfId(chain[|chain| - 1]));
    }
  }

  /** What the walk of a node writes that names the node as parent: its children's rows, in the order listed. */
  lemma KidsOfWalk(g: Grouping, chain: seq<string>)
    requires WellFormed(g) && Chain(g, chain) && g.nodes[chain[|chain| - 1]].item.Some?
    ensures Filter(Subtree(g, chain), ChildOfId(chain[|chain| - 1])) == ItemsOf(g, g.nodes[chain[|chain| - 1]].children)
  {
    var p := chain[|chain| - 1];
    var x := g.nodes[p].item.value;
    var cs := g.nodes[p].children;
    KidsOfChildrenWalk(g, chain, cs);
    FilterAppend([x], Subtrees(g, chain, cs), ChildOfId(p));
    ChainTail(g, chain);
    assert !ChildOfId(p)(x) by {
      if |chain| > 1 {
        assert chain[|chain| - 2] != p;
      }
    }
    assert Filter([x], ChildOfId(p)) == [] by {
      assert [x][..0] == [];
    }
  }

  /** No `unique_id` is written in two parts of a list with unique ids. */
  lemma ThreeParts(a: seq<Entry>, m: seq<Entry>, b: seq<Entry>)
    requires DistinctUids(a + m + b)
    ensures forall y, z | y in a && z in m :: Uid(y.row) != Uid(z.row)
    ensures forall y, z | y in b && z in m :: Uid(y.row) != Uid(z.row)
  {
    var s := a + m + b;
    forall y, z | y in a && z in m
      ensures Uid(y.row) != Uid(z.row)
    {
      var i :| 0 <= i < |a| && a[i] == y;
      var j :| 0 <= j < |m| && m[j] == z;
      assert s[i] == y && s[|a| + j] == z;
    }
    forall y, z | y in b && z in m
      ensures Uid(y.row) != Uid(z.row)
    {
      var i :| 0 <= i < |b| && b[i] == y;
      var j :| 0 <= j < |m| && m[j] == z;
      assert s[|a| + |m| + i] == y && s[|a| + j] == z;
    }
  }

  /** The walk of a listed row is a contiguous part of the listing. */
  lemma ListingAround(g: Grouping, x: Entry) returns (ch: seq<string>, a: seq<Entry>, b: seq<Entry>)
    requires WellFormed(g) && x in Listing(g, g.order)
    ensures Chain(g, ch) && ch[|ch| - 1] == Uid(x.row) && IsItem(g, x)
    ensures Listing(g, g.order) == a + Subtree(g, ch) + b
  {
    var r;
    r, ch := ListedChain(g, x);
    var pre1, post1 := ListingSegment(g, g.order, r);
    var pre2, post2 := SubtreeSegment(g, ch, 1);
    assert ch[..1] == [g.order[r]];
    Nest(Listing(g, g.order), Subtree(g, ch[..1]), Subtree(g, ch), pre1, post1, pre2, post2);
    a, b := pre1 + pre2, post2 + post1;
  }

  /** A listed row lies on a chain from a key the top-level loop walks. */
  lemma ListedChain(g: Grouping, x: Entry) returns (r: int, ch: seq<string>)
    requires WellFormed(g) && x in Listing(g, g.order)
    ensures 0 <= r < |g.order| && Chain(g, ch) && ch[0] == g.order[r]
    ensures RootCandidate(g, g.order[r]) && g.nodes[ch[0]].item.Some?
    ensures ch[|ch| - 1] == Uid(x.row) && IsItem(g, x)
  {
    ListedItem(g, x);
    r :| 0 <= r < |g.order| && BelowRoot(g, g.order[r], Uid(x.row));
    ch := ChainFrom(g, g.order[r], Uid(x.row));
  }

  /** A listed row is a row of the grouping, below a key the top-level loop walks. */
  lemma ListedItem(g: Grouping, x: Entry)
    requires WellFormed(g) && x in Listing(g, g.order)
    ensures IsItem(g, x) && exists k :: 0 <= k < |g.order| && BelowRoot(g, g.order[k], Uid(x.row))
  {
    ListingItems(g, g.order);
  }

  /** A chain from `id` down to `u`, for a `u` below `id`. */
  lemma ChainFrom(g: Grouping, id: string, u: string) returns (ch: seq<string>)
    requires BelowId(g, [id], u)
    ensures Chain(g, ch) && ch[0] == id && ch[|ch| - 1] == u
  {
    ch :| Chain(g, ch) && [id] <= ch && ch[|ch| - 1] == u;
  }

  lemma Nest(l: seq<Entry>, t: seq<Entry>, m: seq<Entry>, pre1: seq<Entry>, post1: seq<Entry>, pre2: seq<Entry>, post2: seq<Entry>)
    requires l == pre1 + t + post1 && t == pre2 + m + post2
    ensures l == (pre1 + pre2) + m + (post2 + post1)
  {
  }

  /** In the listing, the rows naming a listed row are exactly its children's rows, in the order listed. */
  lemma ListingKids(g: Grouping, x: Entry)
    requires WellFormed(g) && x in Listing(g, g.order)
    ensures Uid(x.row) in g.nodes
    ensures Filter(Listing(g, g.order), ChildOfId(Uid(x.row))) == ItemsOf(g, g.nodes[Uid(x.row)].children)
  {
    var out := Listing(g, g.order);
    var p := Uid(x.row);
    var ch, a, b := ListingAround(g, x);
    var mid := Subtree(g, ch);
    ListingDistinct(g, g.order);
    KidsOfWalk(g, ch);
    ThreeParts(a, mid, b);
    ListingItems(g, g.order);
    KidsApart(g, p, a + b, mid);
    assert forall y | y in a :: y in a + b;
    assert forall y | y in b :: y in a + b;
    var kids := ItemsOf(g, g.nodes[p].children);
    FilterNone(a, ChildOfId(p));
    FilterNone(b, ChildOfId(p));
    FilterAppend(a, mid, ChildOfId(p));
    assert Filter(a + mid, ChildOfId(p)) == kids;
    FilterAppend(a + mid, b, ChildOfId(p));
    assert Filter(a + mid + b, ChildOfId(p)) == kids;
  }

  /** Rows of the grouping sharing no id with the walk of `p` do not name `p`. */
  lemma KidsApart(g: Grouping, p: string, rest: seq<Entry>, mid: seq<Entry>)
    requires WellFormed(g) && p in g.nodes
    requires Filter(mid, ChildOfId(p)) == ItemsOf(g, g.nodes[p].children)
    requires forall y | y in rest :: IsItem(g, y)
    requires forall y, z | y in rest && z in mid :: Uid(y.row) != Uid(z.row)
    ensures forall y | y in rest :: !ChildOfId(p)(y)
  {
    forall y | y in rest
      ensures !ChildOfId(p)(y)
    {
      if HasParent(y.row) && ParentId(y.row) == p {
        ItemsOfHas(g, g.nodes[p].children, Uid(y.row));
      }
    }
  }

  /** After the pass, each row of `s` sits under its own id. */
  lemma RowAtOwnId(s: seq<Entry>, k: int)
    requires DistinctUids(s) && 0 <= k < |s|
    ensures Uid(s[k].row) in Pass(s).nodes && Pass(s).nodes[Uid(s[k].row)].item == Some(s[k])
  {
    PassContents(s);
    ItemOfFound(s, k);
    if Uid(s[k].row) !in TouchOrder(s) {
      Untouched(s, Uid(s[k].row));
    }
  }

  /** The rows under the children listed for `p` are the rows naming `p`, in sorted order. */
  lemma {:induction false} ItemsOfChildIds(g: Grouping, s: seq<Entry>, m: int, p: string)
    requires HoldsRows(g, s) && 0 <= m <= |s|
    ensures ItemsOf(g, ChildIds(s[..m], p)) == Filter(s[..m], ChildOfId(p))
  {
    if m > 0 {
      var cs := ChildIds(s[..m - 1], p);
      var fs := Filter(s[..m - 1], ChildOfId(p));
      ItemsOfChildIds(g, s, m - 1, p);
      PrefixStep(s, m, p);
      assert IsItem(g, s[m - 1]);
      ItemsOfNamed(g, s, m - 1, cs, p);
      SameGrowth(ItemsOf(g, ChildIds(s[..m], p)), ItemsOf(g, cs), Filter(s[..m], ChildOfId(p)), fs, KidRow(s[m - 1], p));
    }
  }

  lemma SameGrowth(a1: seq<Entry>, a0: seq<Entry>, b1: seq<Entry>, b0: seq<Entry>, x: seq<Entry>)
    requires a1 == a0 + x && b1 == b0 + x && a0 == b0
    ensures a1 == b1
  {
  }

  /** Every row of `s` sits under its own id in `g`. */
  ghost predicate HoldsRows(g: Grouping, s: seq<Entry>)
  {
    forall k {:trigger IsItem(g, s[k])} | 0 <= k < |s| :: IsItem(g, s[k])
  }

  lemma PassHoldsRows(s: seq<Entry>)
    requires DistinctUids(s)
    ensures HoldsRows(Pass(s), s)
  {
    forall k | 0 <= k < |s|
      ensures IsItem(Pass(s), s[k])
    {
      RowAtOwnId(s, k);
    }
  }

  /** The prefix of `s` one row longer lists that row's id under its parent and filters it in when it names `p`. */
  lemma PrefixStep(s: seq<Entry>, m: int, p: string)
    requires 0 < m <= |s|
    ensures ChildIds(s[..m], p) == ChildIds(s[..m - 1], p) + Named(s[m - 1], p)
    ensures Filter(s[..m], ChildOfId(p)) == Filter(s[..m - 1], ChildOfId(p)) + KidRow(s[m - 1], p)
  {
    assert s[..m][..m - 1] == s[..m - 1] && s[..m][m - 1] == s[m - 1];
  }

  /** Listing the id of row `k` under its parent adds that row to the rows under the listed ids. */
  lemma ItemsOfNamed(g: Grouping, s: seq<Entry>, k: int, cs: seq<string>, p: string)
    requires 0 <= k < |s| && IsItem(g, s[k])
    ensures ItemsOf(g, cs + Named(s[k], p)) == ItemsOf(g, cs) + KidRow(s[k], p)
  {
    var e := s[k];
    if HasParent(e.row) && ParentId(e.row) == p {
      var u := Uid(e.row);
      assert u in g.nodes && g.nodes[u].item == Some(e);
      assert (cs + [u])[..|cs|] == cs;
    } else {
      assert cs + Named(e, p) == cs;
    }
  }

  lemma {:induction false} FilterSorted(s: seq<Entry>, f: Entry -> bool, key: Entry -> string)
    requires SortedBy(s, key)
    ensures SortedBy(Filter(s, f), key)
  {
    if s != [] {
      var n := |s| - 1;
      var t := s[..n];
      assert SortedBy(t, key);
      FilterSorted(t, f, key);
      var r := Filter(s, f);
      var a := Filter(t, f);
      forall i, j | 0 <= i < j < |r|
        ensures StrLe(key(r[i]), key(r[j]))
      {
        if j >= |a| {
          assert r[i] == a[i] && a[i] in t;
          var k :| 0 <= k < n && t[k] == a[i];
        }
      }
    }
  }

  /**
   * Siblings: the listed rows naming a listed row are all the rows of the
   * store's list naming it, in the order `uasort` gave them; so they are
   * ascending by the sort key and, among equal keys, in their order in the
   * store's list.
   */
  lemma OrderedSiblings(ts: seq<Row>, key: Row -> string, x: Entry)
    requires DistinctRowUids(ts) && x in Ordered(ts, key)
    ensures Filter(Ordered(ts, key), ChildOfId(Uid(x.row))) == Filter(SortedRows(ts, key), ChildOfId(Uid(x.row)))
    ensures SortedBy(Filter(Ordered(ts, key), ChildOfId(Uid(x.row))), ByRow(key))
  {
    var sorted := SortedRows(ts, key);
    var g := TreeOf(ts, key);
    var p := Uid(x.row);
    SortedEntries(ts, key);
    TreeOfWellFormed(ts, key);
    ListingKids(g, x);
    PassContents(sorted);
    PassHoldsRows(sorted);
    ItemsOfChildIds(g, sorted, |sorted|, p);
    assert sorted[..|sorted|] == sorted;
    FilterSorted(sorted, ChildOfId(p), ByRow(key));
  }

  /** The row `e` writes to `$array_asc[u]`: its own id, or the id it names as parent. */
  predicate Touches(e: Entry, u: string)
  {
    Uid(e.row) == u || (HasParent(e.row) && ParentId(e.row) == u)
  }

  /** One more row keeps the keys written so far in place and adds only ids the row writes. */
  lemma TouchStep(t: seq<Entry>, e: Entry)
    ensures TouchOrder(t) <= TouchOrder(t + [e])
    ensures forall w :: w in TouchOrder(t + [e]) <==> w in TouchOrder(t) || Touches(e, w)
  {
    PassStep(t, e);
  }

  /** The keys of `$array_asc` are the ids some row writes. */
  lemma {:induction false} TouchOrderMembers(s: seq<Entry>, u: string)
    ensures u in TouchOrder(s) <==> exists m :: 0 <= m < |s| && Touches(s[m], u)
  {
    if s != [] {
      var n := |s| - 1;
      var t := s[..n];
      assert s == t + [s[n]];
      TouchStep(t, s[n]);
      TouchOrderMembers(t, u);
      if exists m :: 0 <= m < |t| && Touches(t[m], u) {
        var m :| 0 <= m < |t| && Touches(t[m], u);
        assert s[m] == t[m];
      }
      if exists m :: 0 <= m < |s| && Touches(s[m], u) {
        var m :| 0 <= m < |s| && Touches(s[m], u);
        if m < n {
          assert t[m] == s[m];
        }
      }
    }
  }

  /**
   * A key added to `$array_asc` before another was written no later than
   * any row writing the other: for every row `m` writing the later key some
   * row `r <= m` writes the earlier one.
   */
  lemma {:induction false} TouchBefore(s: seq<Entry>, a: int, b: int, m: int) returns (r: int)
    requires 0 <= a < b < |TouchOrder(s)| && 0 <= m < |s| && Touches(s[m], TouchOrder(s)[b])
    ensures 0 <= r <= m && Touches(s[r], TouchOrder(s)[a])
  {
    var n := |s| - 1;
    var t := s[..n];
    var e := s[n];
    assert s == t + [e];
    TouchStep(t, e);
    var o, o' := TouchOrder(t), TouchOrder(s);
    var u, v := o'[a], o'[b];
    if b < |o| {
      assert o[a] == u && o[b] == v;
      if m < n {
        assert t[m] == s[m];
        r := TouchBefore(t, a, b, m);
        assert t[r] == s[r];
      } else {
        TouchOrderMembers(t, v);
        var m0 :| 0 <= m0 < |t| && Touches(t[m0], v);
        r := TouchBefore(t, a, b, m0);
        assert t[r] == s[r];
      }
    } else {
      TouchOrderDistinct(s);
      forall k | 0 <= k < |o|
        ensures o[k] != v
      {
        assert o'[k] == o[k];
      }
      TouchOrderMembers(t, v);
      forall m0 | 0 <= m0 < n
        ensures !Touches(s[m0], v)
      {
        assert s[m0] == t[m0];
      }
      TouchOrderMembers(t, u);
      if u in o {
        var m0 :| 0 <= m0 < |t| && Touches(t[m0], u);
        r := m0;
        assert t[r] == s[r];
      } else {
        r := n;
      }
    }
  }

  /** No row naming a parent sorts before the parent's row (in the key order of `key`). */
  ghost predicate ParentKeysFirst(s: seq<Entry>, key: Entry -> string)
  {
    forall i, j | 0 <= i < |s| && 0 <= j < |s| && HasParent(s[j].row) && ParentId(s[j].row) == Uid(s[i].row) ::
      StrLe(key(s[i]), key(s[j]))
  }

  /** A row held in `$array_asc` is a row of `s`, under its own id. */
  lemma HeldRow(s: seq<Entry>, u: string) returns (m: int)
    requires u in Pass(s).nodes && Pass(s).nodes[u].item.Some?
    ensures 0 <= m < |s| && s[m] == Pass(s).nodes[u].item.value && Uid(s[m].row) == u
    ensures Pass(s).order == TouchOrder(s)
  {
    PassContents(s);
    ItemOfIn(s, u);
    m :| 0 <= m < |s| && s[m] == Pass(s).nodes[u].item.value;
  }

  /** The rows have unique ids, are sorted by `key`, and no child sorts before its parent. */
  ghost predicate KeyOrdered(s: seq<Entry>, key: Entry -> string)
  {
    DistinctUids(s) && SortedBy(s, key) && ParentKeysFirst(s, key)
  }

  /**
   * Keys of `$array_asc` holding rows come in key order of their rows: a
   * key is added by its own row or by a child's, and neither sorts after
   * the row itself when children never sort before their parent.
   */
  lemma KeysInRowOrder(s: seq<Entry>, key: Entry -> string, g: Grouping, a: int, b: int)
    requires KeyOrdered(s, key)
    requires g == Pass(s) && WellFormed(g) && 0 <= a < b < |g.order|
    requires g.nodes[g.order[a]].item.Some? && g.nodes[g.order[b]].item.Some?
    ensures StrLe(key(g.nodes[g.order[a]].item.value), key(g.nodes[g.order[b]].item.value))
  {
    var u, v := g.order[a], g.order[b];
    var mu := HeldRow(s, u);
    var mv := HeldRow(s, v);
    var r := TouchBefore(s, a, b, mv);
    TouchKeyOrder(s, key, r, mu, mv);
  }

  /**
   * A row at or before row `mv` that writes the id of row `mu` (as its own
   * id or as its parent) shows that row `mu` sorts no later than row `mv`.
   */
  lemma TouchKeyOrder(s: seq<Entry>, key: Entry -> string, r: int, mu: int, mv: int)
    requires KeyOrdered(s, key)
    requires 0 <= r <= mv < |s| && 0 <= mu < |s| && Touches(s[r], Uid(s[mu].row))
    ensures StrLe(key(s[mu]), key(s[mv]))
  {
    if r < mv {
      assert StrLe(key(s[r]), key(s[mv]));
    } else {
      StrLeRefl(key(s[mv]));
    }
    if Uid(s[r].row) == Uid(s[mu].row) {
      assert r == mu;
    } else {
      assert StrLe(key(s[mu]), key(s[r]));
      StrLeTrans(key(s[mu]), key(s[r]), key(s[mv]));
    }
  }

  /** The row under `id` when the top-level loop writes it: present and without `reference_id`. */
  ghost function RootOf(g: Grouping, id: string): seq<Entry>
  {
    if id in g.nodes && g.nodes[id].item.Some? && !HasParent(g.nodes[id].item.value.row)
    then [g.nodes[id].item.value] else []
  }

  ghost function RootItems(g: Grouping, ids: seq<string>): seq<Entry>
  {
    if ids == [] then [] else RootItems(g, ids[..|ids| - 1]) + RootOf(g, ids[|ids| - 1])
  }

  lemma {:induction false} RootItemsFrom(g: Grouping, ids: seq<string>, x: Entry) returns (a: int)
    requires x in RootItems(g, ids)
    ensures 0 <= a < |ids| && ids[a] in g.nodes && g.nodes[ids[a]].item == Some(x)
  {
    var n := |ids| - 1;
    if x in RootItems(g, ids[..n]) {
      a := RootItemsFrom(g, ids[..n], x);
      assert ids[..n][a] == ids[a];
    } else {
      a := n;
    }
  }

  /** Below a row the top-level loop walks, every row written has a `reference_id`. */
  lemma WalkedBelowHaveParents(g: Grouping, chain: seq<string>, cs: seq<string>)
    requires WellFormed(g) && Chain(g, chain)
    ensures forall y | y in Subtrees(g, chain, cs) :: !IsRoot(y)
  {
    SubtreesItems(g, chain, cs);
    forall y | y in Subtrees(g, chain, cs)
      ensures !IsRoot(y)
    {
      var k :| 0 <= k < |cs| && BelowVia(g, chain, cs[k], Uid(y.row));
      var ch :| Chain(g, ch) && chain + [cs[k]] <= ch && ch[|ch| - 1] == Uid(y.row);
      ChainTail(g, ch);
    }
  }

  /** The rows without `reference_id` in the listing are those of the walked keys, in key order. */
  lemma {:induction false} ListingRoots(g: Grouping, ids: seq<string>)
    requires WellFormed(g) && forall id | id in ids :: id in g.nodes
    ensures Filter(Listing(g, ids), IsRoot) == RootItems(g, ids)
  {
    if ids != [] {
      var n := |ids| - 1;
      var id := ids[n];
      ListingRoots(g, ids[..n]);
      FilterAppend(Listing(g, ids[..n]), Top(g, id), IsRoot);
      TopRoots(g, id);
    }
  }

  lemma TopRoots(g: Grouping, id: string)
    requires WellFormed(g) && id in g.nodes
    ensures Filter(Top(g, id), IsRoot) == RootOf(g, id)
  {
    var node := g.nodes[id];
    if RootCandidate(g, id) && node.item.Some? {
      var x := node.item.value;
      var rest := Subtrees(g, [id], node.children);
      assert Top(g, id) == [x] + rest;
      WalkedBelowHaveParents(g, [id], node.children);
      FilterNone(rest, IsRoot);
      FilterAppend([x], rest, IsRoot);
      assert Filter([x], IsRoot) == [x] by {
        assert [x][..0] == [];
      }
    }
  }

  /** The rows held under the keys of `g` come in ascending order of `key`, in key order. */
  ghost predicate RowsInKeyOrder(g: Grouping, key: Entry -> string)
  {
    forall a, b | 0 <= a < b < |g.order| && g.order[a] in g.nodes && g.order[b] in g.nodes &&
                  g.nodes[g.order[a]].item.Some? && g.nodes[g.order[b]].item.Some? ::
      StrLe(key(g.nodes[g.order[a]].item.value), key(g.nodes[g.order[b]].item.value))
  }

  lemma PassRowsInKeyOrder(s: seq<Entry>, key: Entry -> string)
    requires KeyOrdered(s, key)
    ensures RowsInKeyOrder(Pass(s), key)
  {
    var g := Pass(s);
    PassWellFormed(s);
    forall a, b | 0 <= a < b < |g.order| && g.order[a] in g.nodes && g.order[b] in g.nodes &&
                  g.nodes[g.order[a]].item.Some? && g.nodes[g.order[b]].item.Some?
      ensures StrLe(key(g.nodes[g.order[a]].item.value), key(g.nodes[g.order[b]].item.value))
    {
      KeysInRowOrder(s, key, g, a, b);
    }
  }

  lemma {:induction false} RootItemsSorted(g: Grouping, key: Entry -> string, n: int)
    requires RowsInKeyOrder(g, key) && 0 <= n <= |g.order|
    ensures SortedBy(RootItems(g, g.order[..n]), key)
  {
    if n > 0 {
      RootItemsSorted(g, key, n - 1);
      var front := RootItems(g, g.order[..n - 1]);
      var last := RootOf(g, g.order[n - 1]);
      RootItemsStep(g, g.order, n - 1);
      forall x | x in front && last != []
        ensures StrLe(key(x), key(last[0]))
      {
        RootBeforeLast(g, key, n, x);
      }
      SortedSnoc(front, last, key);
    }
  }

  lemma RootItemsStep(g: Grouping, ids: seq<string>, i: int)
    requires 0 <= i < |ids|
    ensures RootItems(g, ids[..i + 1]) == RootItems(g, ids[..i]) + RootOf(g, ids[i])
  {
    assert ids[..i + 1][..i] == ids[..i];
  }

  /** A root row written before key `n - 1` sorts no later than the row of that key. */
  lemma RootBeforeLast(g: Grouping, key: Entry -> string, n: int, x: Entry)
    requires RowsInKeyOrder(g, key) && 0 < n <= |g.order|
    requires x in RootItems(g, g.order[..n - 1]) && RootOf(g, g.order[n - 1]) != []
    ensures StrLe(key(x), key(RootOf(g, g.order[n - 1])[0]))
  {
    var a := RootItemsFrom(g, g.order[..n - 1], x);
    assert g.order[..n - 1][a] == g.order[a];
  }

  /** A sorted list followed by at most one row that sorts no earlier than any of it is sorted. */
  lemma SortedSnoc(front: seq<Entry>, last: seq<Entry>, key: Entry -> string)
    requires SortedBy(front, key) && |last| <= 1
    requires last != [] ==> forall x | x in front :: StrLe(key(x), key(last[0]))
    ensures SortedBy(front + last, key)
  {
    var r := front + last;
    forall i, j | 0 <= i < j < |r|
      ensures StrLe(key(r[i]), key(r[j]))
    {
      if j >= |front| {
        assert r[i] == front[i] && front[i] in front;
      } else {
        assert r[i] == front[i] && r[j] == front[j];
      }
    }
  }

  /**
   * Roots: when no row naming a parent sorts before that parent (the
   * comment on the pass assumes parents are created earlier), the listed
   * rows without `reference_id` come in ascending order of the sort key.
   */
  lemma OrderedRootsSorted(ts: seq<Row>, key: Row -> string)
    requires DistinctRowUids(ts)
    requires forall i, j | 0 <= i < |ts| && 0 <= j < |ts| && HasParent(ts[j]) && ParentId(ts[j]) == Uid(ts[i]) ::
      StrLe(key(ts[i]), key(ts[j]))
    ensures SortedBy(Filter(Ordered(ts, key), IsRoot), ByRow(key))
  {
    var sorted := SortedRows(ts, key);
    var g := TreeOf(ts, key);
    SortedKeyOrdered(ts, key);
    TreeOfWellFormed(ts, key);
    ListingRoots(g, g.order);
    PassRowsInKeyOrder(sorted, ByRow(key));
    RootItemsSorted(g, ByRow(key), |g.order|);
    assert g.order[..|g.order|] == g.order;
  }

  /** Under the premise of `OrderedRootsSorted`, the sorted list meets `KeyOrdered`. */
  lemma SortedKeyOrdered(ts: seq<Row>, key: Row -> string)
    requires DistinctRowUids(ts)
    requires forall i, j | 0 <= i < |ts| && 0 <= j < |ts| && HasParent(ts[j]) && ParentId(ts[j]) == Uid(ts[i]) ::
      StrLe(key(ts[i]), key(ts[j]))
    ensures KeyOrdered(SortedRows(ts, key), ByRow(key))
  {
    var sorted := SortedRows(ts, key);
    SortedEntries(ts, key);
    forall i, j | 0 <= i < |sorted| && 0 <= j < |sorted| && HasParent(sorted[j].row) && ParentId(sorted[j].row) == Uid(sorted[i].row)
      ensures StrLe(ByRow(key)(sorted[i]), ByRow(key)(sorted[j]))
    {
      assert sorted[i] in Indexed(ts) && sorted[j] in Indexed(ts);
      var ki :| 0 <= ki < |ts| && Indexed(ts)[ki] == sorted[i];
      var kj :| 0 <= kj < |ts| && Indexed(ts)[kj] == sorted[j];
    }
  }

  // ---------------------------------------------------------------------
  // The key `order()` sorts by

  /** The Unix epoch: what `date()` formats when `strtotime` fails. */
  const Epoch := DateTime(1970, 1, 1, 0, 0, 0)

  /** The DATETIME of a row's timestamp cell (the epoch, as `strtotime` failing gives, for any other cell). */
  function StampOf(row: Row): DateTime
  {
    match Get(row, Timestamp)
    case Time(t) => t
    case _ => Epoch
  }

  /**
   * The key as written: by the time `uasort` runs, the loop above it has
   * replaced each timestamp with its `H:i:s m/d/Y` form, clock time first.
   * A cell that is not a DATETIME is taken as the epoch.
   */
  function ListingKey(row: Row): string
  {
    ListingText(StampOf(row))
  }

  /** The key the sort evidently means: the stored `Y-m-d H:i:s` text. */
  function ChronologicalKey(row: Row): string
  {
    Text(Get(row, Timestamp))
  }

  /** On valid DATETIME cells, the stored text orders exactly as time does. */
  lemma ChronologicalKeyOrders(r1: Row, r2: Row)
    requires Get(r1, Timestamp).Time? && Get(r1, Timestamp).t.Valid()
    requires Get(r2, Timestamp).Time? && Get(r2, Timestamp).t.Valid()
    ensures StrLe(ChronologicalKey(r1), ChronologicalKey(r2)) <==> Before(Get(r1, Timestamp).t, Get(r2, Timestamp).t)
  {
    IsoTextChronological(Get(r1, Timestamp).t, Get(r2, Timestamp).t);
  }

  lemma {:induction false} FilterAll(s: seq<Entry>, f: Entry -> bool)
    requires forall x | x in s :: f(x)
    ensures Filter(s, f) == s
  {
    if s != [] {
      var n := |s| - 1;
      InitMembers(s);
      FilterAll(s[..n], f);
      assert f(s[n]);
      FilterKeepsLast(s, f);
      SnocLast(s);
    }
  }

  /** The rows before the last are rows of `s`. */
  lemma InitMembers(s: seq<Entry>)
    requires s != []
    ensures forall x | x in s[..|s| - 1] :: x in s
  {
  }

  /** A last row that `f` picks is kept, after the rows picked before it. */
  lemma FilterKeepsLast(s: seq<Entry>, f: Entry -> bool)
    requires s != [] && f(s[|s| - 1])
    ensures Filter(s, f) == Filter(s[..|s| - 1], f) + [s[|s| - 1]]
  {
  }

  /** A sequence is its rows before the last, then the last. */
  lemma SnocLast(s: seq<Entry>)
    requires s != []
    ensures s[..|s| - 1] + [s[|s| - 1]] == s
  {
  }

  /** Two rows without `reference_id` are both listed, in the order of their keys. */
  lemma TwoRoots(ts: seq<Row>, key: Row -> string)
    requires |ts| == 2 && Uid(ts[0]) != Uid(ts[1]) && !HasParent(ts[0]) && !HasParent(ts[1])
    ensures DistinctRowUids(ts)
    ensures Entry(0, ts[0]) in Ordered(ts, key) && Entry(1, ts[1]) in Ordered(ts, key)
    ensures SortedBy(Ordered(ts, key), ByRow(key))
  {
    OrderedRoots(ts, key);
    AllRoots(ts, key);
  }

  /** When no row has a `reference_id`, every row is a root and the listing is sorted by key. */
  lemma AllRoots(ts: seq<Row>, key: Row -> string)
    requires DistinctRowUids(ts) && forall k | 0 <= k < |ts| :: !HasParent(ts[k])
    ensures SortedBy(Ordered(ts, key), ByRow(key))
  {
    var o := Ordered(ts, key);
    OrderedRows(ts, key);
    FilterAll(o, IsRoot);
    OrderedRootsSorted(ts, key);
  }

  /** Late on one day, and early on the next. */
  const LateEvening := DateTime(2024, 1, 1, 23, 0, 0)
  const NextMorning := DateTime(2024, 1, 2, 8, 0, 0)

  /** A stored transaction with only an id and a timestamp. */
  function Stamped(id: string, t: DateTime): Row
  {
    map[UniqueId := Str(id), Timestamp := Time(t)]
  }

  /** The two transactions of the example: made late one evening, and early the next morning. */
  predicate EveningThenMorning(ts: seq<Row>)
  {
    |ts| == 2 && ts[0] == Stamped("a", LateEvening) && ts[1] == Stamped("b", NextMorning)
  }

  /**
   * As written, two initial transactions of one order, the first made late
   * on one day and the second early the next day, are listed second first:
   * "23:00:00 01/01/2024" sorts after "08:00:00 01/02/2024".
   */
  lemma ListingKeyMisorders(ts: seq<Row>)
    requires EveningThenMorning(ts)
    ensures Before(LateEvening, NextMorning) && !Before(NextMorning, LateEvening)
    ensures DistinctRowUids(ts)
    ensures Entry(0, ts[0]) in Ordered(ts, ListingKey) && Entry(1, ts[1]) in Ordered(ts, ListingKey)
    ensures forall i, j | 0 <= i < |Ordered(ts, ListingKey)| && 0 <= j < |Ordered(ts, ListingKey)| &&
      Ordered(ts, ListingKey)[i] == Entry(0, ts[0]) && Ordered(ts, ListingKey)[j] == Entry(1, ts[1]) :: j < i
  {
    ExampleRows(ts);
    TwoRoots(ts, ListingKey);
    ListingKeyOf(Entry(0, ts[0]), LateEvening);
    ListingKeyOf(Entry(1, ts[1]), NextMorning);
    ClockComesFirst();
    SortedPlaces(Ordered(ts, ListingKey), ByRow(ListingKey), Entry(0, ts[0]), Entry(1, ts[1]));
  }

  /** In a sorted sequence an element whose key sorts after another's stands after it. */
  lemma SortedPlaces(s: seq<Entry>, key: Entry -> string, x: Entry, y: Entry)
    requires SortedBy(s, key) && !StrLe(key(x), key(y))
    ensures forall i, j | 0 <= i < |s| && 0 <= j < |s| && s[i] == x && s[j] == y :: j < i
  {
    forall i, j | 0 <= i < |s| && 0 <= j < |s| && s[i] == x && s[j] == y
      ensures j < i
    {
      if i == j {
        StrLeRefl(key(x));
      }
    }
  }

  lemma ExampleRows(ts: seq<Row>)
    requires EveningThenMorning(ts)
    ensures Uid(ts[0]) == "a" && Uid(ts[1]) == "b" && !HasParent(ts[0]) && !HasParent(ts[1])
    ensures Get(ts[0], Timestamp) == Time(LateEvening) && Get(ts[1], Timestamp) == Time(NextMorning)
  {
  }

  /** The listing key of a row stamped `t` is the listing form of `t`. */
  lemma ListingKeyOf(e: Entry, t: DateTime)
    requires Get(e.row, Timestamp) == Time(t)
    ensures ByRow(ListingKey)(e) == ListingText(t)
  {
    assert StampOf(e.row) == t;
    assert ByRow(ListingKey)(e) == ListingKey(e.row);
  }

  /** The listing form starts with the hour: "23..." for the evening, "08..." for the morning. */
  lemma ClockComesFirst()
    ensures !StrLe(ListingText(LateEvening), ListingText(NextMorning))
  {
    assert Pad(2, 1) == Pad(0, 0) + [DigitChar(2)] == "2";
    assert Field2(23) == Pad(2, 1) + [DigitChar(3)];
    assert Pad(0, 1) == Pad(0, 0) + [DigitChar(0)] == "0";
    assert Field2(8) == Pad(0, 1) + [DigitChar(8)];
    assert ListingText(LateEvening)[0] == '2' && ListingText(NextMorning)[0] == '0';
  }

  /** With the stored text as the key, the same two transactions are listed in the order they were made. */
  lemma ChronologicalKeyOrdersThem(ts: seq<Row>)
    requires EveningThenMorning(ts)
    ensures DistinctRowUids(ts)
    ensures Entry(0, ts[0]) in Ordered(ts, ChronologicalKey) && Entry(1, ts[1]) in Ordered(ts, ChronologicalKey)
    ensures forall i, j | 0 <= i < |Ordered(ts, ChronologicalKey)| && 0 <= j < |Ordered(ts, ChronologicalKey)| &&
      Ordered(ts, ChronologicalKey)[i] == Entry(0, ts[0]) && Ordered(ts, ChronologicalKey)[j] == Entry(1, ts[1]) :: i < j
  {
    ExampleRows(ts);
    TwoRoots(ts, ChronologicalKey);
    ChronologicalKeyOrders(ts[1], ts[0]);
    SortedPlaces(Ordered(ts, ChronologicalKey), ByRow(ChronologicalKey), Entry(1, ts[1]), Entry(0, ts[0]));
  }

  /** Every row has a valid DATETIME timestamp. */
  ghost predicate ValidStamps(ts: seq<Row>)
  {
    forall k | 0 <= k < |ts| :: Get(ts[k], Timestamp).Time? && Get(ts[k], Timestamp).t.Valid()
  }

  /** No follow-up transaction is stamped before the transaction it references. */
  ghost predicate StampedAfterParent(ts: seq<Row>)
    requires ValidStamps(ts)
  {
    forall i, j | 0 <= i < |ts| && 0 <= j < |ts| && HasParent(ts[j]) && ParentId(ts[j]) == Uid(ts[i]) ::
      Before(Get(ts[i], Timestamp).t, Get(ts[j], Timestamp).t)
  }

  lemma ChronologicalParentsFirst(ts: seq<Row>)
    requires ValidStamps(ts) && StampedAfterParent(ts)
    ensures forall i, j | 0 <= i < |ts| && 0 <= j < |ts| && HasParent(ts[j]) && ParentId(ts[j]) == Uid(ts[i]) ::
      StrLe(ChronologicalKey(ts[i]), ChronologicalKey(ts[j]))
  {
    forall i, j | 0 <= i < |ts| && 0 <= j < |ts| && HasParent(ts[j]) && ParentId(ts[j]) == Uid(ts[i])
      ensures StrLe(ChronologicalKey(ts[i]), ChronologicalKey(ts[j]))
    {
      ChronologicalKeyOrders(ts[i], ts[j]);
    }
  }

  /**
   * With the stored text as the key, when every timestamp is a valid
   * DATETIME and no follow-up transaction is stamped before the transaction
   * it references, the listed rows without `reference_id` come in the order
   * they were made.
   */
  lemma OrderedRootsChronological(ts: seq<Row>)
    requires DistinctRowUids(ts) && ValidStamps(ts) && StampedAfterParent(ts)
    ensures forall i, j | 0 <= i < j < |Filter(Ordered(ts, ChronologicalKey), IsRoot)| ::
      Before(StampOf(Filter(Ordered(ts, ChronologicalKey), IsRoot)[i].row),
             StampOf(Filter(Ordered(ts, ChronologicalKey), IsRoot)[j].row))
  {
    ChronologicalParentsFirst(ts);
    OrderedRootsSorted(ts, ChronologicalKey);
    OrderedRows(ts, ChronologicalKey);
    var roots := Filter(Ordered(ts, ChronologicalKey), IsRoot);
    forall x | x in roots
      ensures Get(x.row, Timestamp).Time? && Get(x.row, Timestamp).t.Valid()
    {
      assert x in Ordered(ts, ChronologicalKey);
    }
    SortedChronological(roots);
  }

  /** A list sorted by the stored text of valid timestamps is in chronological order. */
  lemma SortedChronological(s: seq<Entry>)
    requires SortedBy(s, ByRow(ChronologicalKey))
    requires forall x | x in s :: Get(x.row, Timestamp).Time? && Get(x.row, Timestamp).t.Valid()
    ensures forall i, j | 0 <= i < j < |s| :: Before(StampOf(s[i].row), StampOf(s[j].row))
  {
    forall i, j | 0 <= i < j < |s|
      ensures Before(StampOf(s[i].row), StampOf(s[j].row))
    {
      assert s[i] in s && s[j] in s;
      assert StrLe(ByRow(ChronologicalKey)(s[i]), ByRow(ChronologicalKey)(s[j]));
      ChronologicalKeyOrders(s[i].row, s[j].row);
    }
  }
}
