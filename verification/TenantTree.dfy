/** The tenant tree as stored: rows with parent pointers that may dangle or form
    cycles (libs/common/sovereign/tenancy/tenant_store.py). */
module TenantTree {
  import opened Prelude

  datatype Tenant = Tenant(id: string, parent: Option<string>, name: string)

  /** Rows by id, as the table's key guarantees. */
  type Index = map<string, Tenant>

  /** No id occurs twice. */
  ghost predicate DistinctIds(ts: seq<Tenant>) {
    forall i, j :: 0 <= i < j < |ts| ==> ts[i].id != ts[j].id
  }

  function IndexOf(rows: seq<Tenant>): (idx: Index)
    ensures forall id :: id in idx ==> idx[id] in rows && idx[id].id == id
    ensures forall r :: r in rows ==> r.id in idx
  {
    if rows == [] then map[]
    else
      var n := |rows| - 1;
      IndexOf(rows[..n])[rows[n].id := rows[n]]
  }

  lemma {:induction false} IndexHasRows(rows: seq<Tenant>)
    requires DistinctIds(rows)
    ensures forall r :: r in rows ==> r.id in IndexOf(rows) && IndexOf(rows)[r.id] == r
  {
    if rows != [] {
      IndexHasRows(rows[..|rows| - 1]);
    }
  }

  // ---------------------------------------------------------------- parent links

  function ParentOf(idx: Index, id: string): Option<string> {
    if id in idx && Truthy(idx[id].parent) then idx[id].parent else None
  }

  /** The id reached from id by n parent links. */
  function Climb(idx: Index, id: string, n: nat): Option<string> {
    if n == 0 then Some(id)
    else
      match Climb(idx, id, n - 1)
      case None => None
      case Some(m) => ParentOf(idx, m)
  }

  /** a is reached from id by one or more parent links. */
  ghost predicate Below(idx: Index, id: string, a: string) {
    exists n: nat :: n >= 1 && Climb(idx, id, n) == Some(a)
  }

  lemma {:induction false} ClimbAdds(idx: Index, id: string, m: nat, n: nat)
    requires Climb(idx, id, m).Some?
    ensures Climb(idx, id, m + n) == Climb(idx, Climb(idx, id, m).value, n)
  {
    if n > 0 {
      ClimbAdds(idx, id, m, n - 1);
    }
  }

  lemma {:induction false} ClimbStops(idx: Index, id: string, m: nat, n: nat)
    requires m <= n && Climb(idx, id, m) == None
    ensures Climb(idx, id, n) == None
  {
    if m < n {
      ClimbStops(idx, id, m, n - 1);
    }
  }

  lemma BelowTransitive(idx: Index, a: string, b: string, c: string)
    requires Below(idx, a, b) && Below(idx, b, c)
    ensures Below(idx, a, c)
  {
    var m: nat :| m >= 1 && Climb(idx, a, m) == Some(b);
    var n: nat :| n >= 1 && Climb(idx, b, n) == Some(c);
    ClimbAdds(idx, a, m, n);
    assert Climb(idx, a, m + n) == Some(c);
  }

  // ---------------------------------------------------------------- ancestors

  function Ids(ts: seq<Tenant>): set<string> {
    set t | t in ts :: t.id
  }

  /** A set of rows that contains every existing parent of id and of its members
      contains every existing ancestor of id. */
  lemma {:induction false} ClosedUpward(idx: Index, id: string, ids: set<string>, n: nat)
    requires n >= 1 && Climb(idx, id, n).Some? && Climb(idx, id, n).value in idx
    requires forall x :: x == id || x in ids ==>
               ParentOf(idx, x).Some? && ParentOf(idx, x).value in idx ==> ParentOf(idx, x).value in ids
    ensures Climb(idx, id, n).value in ids
  {
    if n > 1 {
      ClosedUpward(idx, id, ids, n - 1);
    }
  }

  /** Row i of a chain is reached from id by i + 1 links. */
  ghost predicate IsChain(idx: Index, id: string, ts: seq<Tenant>) {
    forall i :: 0 <= i < |ts| ==> ts[i].id in idx && ts[i] == idx[ts[i].id] && Climb(idx, id, i + 1) == Some(ts[i].id)
  }

  /** Every parent met so far has been recorded, except that of the row we are at. */
  ghost predicate ParentsSeen(idx: Index, id: string, seen: set<string>, at: string) {
    forall x :: (x == id || x in seen) && x != at && ParentOf(idx, x).Some? ==> ParentOf(idx, x).value in seen
  }

  ghost predicate WalkInv(idx: Index, id: string, ancestors: seq<Tenant>, seen: set<string>, at: string) {
    && IsChain(idx, id, ancestors)
    && Climb(idx, id, |ancestors|) == Some(at)
    && DistinctIds(ancestors)
    && seen == Ids(ancestors)
    && ParentsSeen(idx, id, seen, at)
  }

  lemma IdsSnoc(ts: seq<Tenant>, t: Tenant)
    ensures Ids(ts + [t]) == Ids(ts) + {t.id}
  {
    assert forall x :: x in Ids(ts) ==> exists u :: u in ts && u.id == x;
    assert forall u :: u in ts ==> u in ts + [t];
    assert t in ts + [t];
  }

  lemma DistinctSnoc(ts: seq<Tenant>, t: Tenant)
    requires DistinctIds(ts) && t.id !in Ids(ts)
    ensures DistinctIds(ts + [t])
  {
    forall i | 0 <= i < |ts| ensures ts[i].id != t.id {
      assert ts[i] in ts;
    }
  }

  lemma WalkStep(idx: Index, id: string, ancestors: seq<Tenant>, seen: set<string>, at: string, p: string)
    requires WalkInv(idx, id, ancestors, seen, at)
    requires ParentOf(idx, at) == Some(p) && p in idx && idx[p].id == p && p !in seen
    ensures WalkInv(idx, id, ancestors + [idx[p]], seen + {p}, p)
  {
    IdsSnoc(ancestors, idx[p]);
    DistinctSnoc(ancestors, idx[p]);
    assert Climb(idx, id, |ancestors| + 1) == Some(p);
  }

  /** Ancestors in order, nearest first: row i is the one reached by i + 1 links.
      No row repeats and, whether the table is acyclic, cyclic or has dangling
      parents, exactly the existing rows reachable by parent links are returned. */
  method GetAncestors(rows: seq<Tenant>, id: string) returns (ancestors: seq<Tenant>)
    ensures IsChain(IndexOf(rows), id, ancestors) && DistinctIds(ancestors)
    ensures Ids(ancestors) == AncestorIds(IndexOf(rows), id)
  {
    var idx := IndexOf(rows);
    ancestors := [];
    var current := if id in idx then Some(idx[id]) else None;
    var seen: set<string> := {};
    ghost var at := id;
    while current.Some? && Truthy(current.value.parent) && current.value.parent.value !in seen
      invariant current == if at in idx then Some(idx[at]) else None
      invariant WalkInv(idx, id, ancestors, seen, at)
      decreases idx.Keys - seen
    {
      var p := current.value.parent.value;
      if p !in idx {
        break;
      }
      WalkStep(idx, id, ancestors, seen, at, p);
      seen := seen + {p};
      ancestors := ancestors + [idx[p]];
      at := p;
      current := Some(idx[p]);
    }
    AncestorsComplete(idx, id, ancestors);
  }

  ghost function AncestorIds(idx: Index, id: string): set<string> {
    set a | a in idx && Below(idx, id, a)
  }

  lemma AncestorsComplete(idx: Index, id: string, ancestors: seq<Tenant>)
    requires IsChain(idx, id, ancestors)
    requires forall x :: x == id || x in Ids(ancestors) ==>
               ParentOf(idx, x).Some? && ParentOf(idx, x).value in idx ==> ParentOf(idx, x).value in Ids(ancestors)
    ensures Ids(ancestors) == AncestorIds(idx, id)
  {
    forall a | a in idx ensures a in Ids(ancestors) <==> Below(idx, id, a) {
      if a in Ids(ancestors) {
        var i :| 0 <= i < |ancestors| && ancestors[i].id == a;
        assert Climb(idx, id, i + 1) == Some(a);
      }
      if Below(idx, id, a) {
        var n: nat :| n >= 1 && Climb(idx, id, n) == Some(a);
        ClosedUpward(idx, id, Ids(ancestors), n);
      }
    }
  }

  // ---------------------------------------------------------------- descendants

  function ChildrenOf(rows: seq<Tenant>, id: string): seq<Tenant> {
    if rows == [] then []
    else
      var n := |rows| - 1;
      ChildrenOf(rows[..n], id) + if Truthy(rows[n].parent) && rows[n].parent.value == id then [rows[n]] else []
  }

  lemma {:induction false} ChildrenAreLinked(rows: seq<Tenant>, id: string)
    ensures forall t :: t in ChildrenOf(rows, id) <==> t in rows && Truthy(t.parent) && t.parent.value == id
  {
    if rows != [] {
      var n := |rows| - 1;
      ChildrenAreLinked(rows[..n], id);
      assert rows == rows[..n] + [rows[n]];
    }
  }

  lemma ChildrenInIndex(rows: seq<Tenant>, id: string)
    requires DistinctIds(rows)
    ensures forall t :: t in ChildrenOf(rows, id) ==> t in rows && ParentOf(IndexOf(rows), t.id) == Some(id)
    ensures forall d :: d in IndexOf(rows) && ParentOf(IndexOf(rows), d) == Some(id) ==>
            IndexOf(rows)[d] in ChildrenOf(rows, id)
  {
    ChildrenAreLinked(rows, id);
    IndexHasRows(rows);
  }

  function Lookup(children: map<string, seq<Tenant>>, p: string): seq<Tenant> {
    if p in children then children[p] else []
  }

  method GroupByParent(rows: seq<Tenant>) returns (children: map<string, seq<Tenant>>)
    ensures forall p :: Lookup(children, p) == ChildrenOf(rows, p)
  {
    children := map[];
    for i := 0 to |rows|
      invariant forall p :: Lookup(children, p) == ChildrenOf(rows[..i], p)
    {
      assert rows[..i + 1][..i] == rows[..i];
      var t := rows[i];
      if Truthy(t.parent) {
        var p := t.parent.value;
        children := children[p := Lookup(children, p) + [t]];
      }
    }
    assert rows[..|rows|] == rows;
  }

  /** A set closed under children of id and of its members contains everything below id. */
  lemma {:induction false} ClosedDownward(idx: Index, id: string, ids: set<string>, d: string, n: nat)
    requires n >= 1 && Climb(idx, d, n) == Some(id)
    requires forall c :: c in idx && ParentOf(idx, c).Some? ==>
               ParentOf(idx, c).value == id || ParentOf(idx, c).value in ids ==> c in ids
    ensures d in idx && d in ids
    decreases n
  {
    if Climb(idx, d, 1) == None {
      ClimbStops(idx, d, 1, n);
    }
    assert Climb(idx, d, 1) == ParentOf(idx, d);
    var p := ParentOf(idx, d).value;
    if n > 1 {
      ClimbAdds(idx, d, 1, n - 1);
      ClosedDownward(idx, id, ids, p, n - 1);
    }
  }

  lemma BelowStep(idx: Index, d: string, p: string, id: string)
    requires ParentOf(idx, d) == Some(p) && (p == id || Below(idx, p, id))
    ensures Below(idx, d, id)
  {
    assert Climb(idx, d, 0) == Some(d);
    assert Climb(idx, d, 1) == Some(p);
    if p != id {
      assert Below(idx, d, p);
      BelowTransitive(idx, d, p, id);
    }
  }

  ghost predicate RowsBelow(idx: Index, id: string, ts: seq<Tenant>) {
    forall t :: t in ts ==> t.id in idx && idx[t.id] == t && Below(idx, t.id, id)
  }

  /** Every child of id or of a visited row has been visited or waits on the stack. */
  ghost predicate Frontier(idx: Index, id: string, seen: set<string>, stack: seq<Tenant>) {
    forall c :: c in idx && ParentOf(idx, c).Some? ==>
      ParentOf(idx, c).value == id || ParentOf(idx, c).value in seen ==> c in seen || c in Ids(stack)
  }

  ghost predicate VisitInv(idx: Index, id: string, out: seq<Tenant>, seen: set<string>, stack: seq<Tenant>) {
    seen == Ids(out) && DistinctIds(out) && RowsBelow(idx, id, out) && RowsBelow(idx, id, stack) &&
      Frontier(idx, id, seen, stack)
  }

  /** The children of p, as a walk that started at id meets them. */
  lemma ChildrenBelow(rows: seq<Tenant>, p: string, id: string)
    requires DistinctIds(rows) && (p == id || Below(IndexOf(rows), p, id))
    ensures IsChildList(IndexOf(rows), id, p, ChildrenOf(rows, p))
  {
    ChildrenInIndex(rows, p);
    IndexHasRows(rows);
    forall t | t in ChildrenOf(rows, p) ensures Below(IndexOf(rows), t.id, id) {
      BelowStep(IndexOf(rows), t.id, p, id);
    }
  }

  lemma IdsConcat(a: seq<Tenant>, b: seq<Tenant>)
    ensures Ids(a + b) == Ids(a) + Ids(b)
  {
    assert forall t :: t in a + b <==> t in a || t in b;
  }

  lemma VisitStart(idx: Index, id: string, stack: seq<Tenant>)
    requires IsChildList(idx, id, id, stack)
    ensures VisitInv(idx, id, [], {}, stack)
  {
  }

  lemma NodeBelow(idx: Index, id: string, rest: seq<Tenant>, node: Tenant)
    requires RowsBelow(idx, id, rest + [node])
    ensures node.id in idx && Below(idx, node.id, id)
  {
    assert node in rest + [node];
  }

  lemma VisitSkip(idx: Index, id: string, out: seq<Tenant>, seen: set<string>, rest: seq<Tenant>, node: Tenant)
    requires VisitInv(idx, id, out, seen, rest + [node]) && node.id in seen
    ensures VisitInv(idx, id, out, seen, rest)
  {
    IdsSnoc(rest, node);
    assert forall t :: t in rest ==> t in rest + [node];
  }

  lemma VisitNode(idx: Index, id: string, out: seq<Tenant>, seen: set<string>, rest: seq<Tenant>, node: Tenant,
                  next: seq<Tenant>)
    requires VisitInv(idx, id, out, seen, rest + [node]) && node.id !in seen
    requires IsChildList(idx, id, node.id, next)
    ensures VisitInv(idx, id, out + [node], seen + {node.id}, rest + next)
  {
    IdsSnoc(rest, node);
    IdsConcat(rest, next);
    IdsSnoc(out, node);
    DistinctSnoc(out, node);
    assert forall t :: t in rest || t == node ==> t in rest + [node];
  }

  /** The child lists hold, for every tenant the walk can meet, exactly its children. */
  ghost predicate ChildrenOk(idx: Index, id: string, children: map<string, seq<Tenant>>) {
    forall p :: p == id || Below(idx, p, id) ==> IsChildList(idx, id, p, Lookup(children, p))
  }

  ghost predicate IsChildList(idx: Index, id: string, p: string, next: seq<Tenant>) {
    RowsBelow(idx, id, next) && forall c :: c in idx && ParentOf(idx, c) == Some(p) ==> c in Ids(next)
  }

  method Visit(idx: Index, id: string, children: map<string, seq<Tenant>>) returns (out: seq<Tenant>)
    requires ChildrenOk(idx, id, children)
    ensures VisitInv(idx, id, out, Ids(out), [])
  {
    out := [];
    var stack := Lookup(children, id);
    var seen: set<string> := {};
    VisitStart(idx, id, stack);
    while stack != []
      invariant VisitInv(idx, id, out, seen, stack)
      decreases idx.Keys - seen, |stack|
    {
      var node := stack[|stack| - 1];
      assert stack == stack[..|stack| - 1] + [node];
      NodeBelow(idx, id, stack[..|stack| - 1], node);
      stack := stack[..|stack| - 1];
      if node.id in seen {
        VisitSkip(idx, id, out, seen, stack, node);
        continue;
      }
      var next := Lookup(children, node.id);
      VisitNode(idx, id, out, seen, stack, node, next);
      seen := seen + {node.id};
      out := out + [node];
      stack := stack + next;
    }
  }

  /** Everything below id, each row once: exactly the rows from which id is reached
      by parent links, also when id itself has no row. */
  method GetDescendants(rows: seq<Tenant>, id: string) returns (out: seq<Tenant>)
    requires DistinctIds(rows)
    ensures DistinctIds(out) && RowsBelow(IndexOf(rows), id, out)
    ensures forall d :: d in Ids(out) <==> Below(IndexOf(rows), d, id)
  {
    var children := GroupByParent(rows);
    ChildrenListsOk(rows, id, children);
    out := Visit(IndexOf(rows), id, children);
    VisitComplete(IndexOf(rows), id, out);
  }

  lemma ChildrenListsOk(rows: seq<Tenant>, id: string, children: map<string, seq<Tenant>>)
    requires DistinctIds(rows) && forall p :: Lookup(children, p) == ChildrenOf(rows, p)
    ensures ChildrenOk(IndexOf(rows), id, children)
  {
    forall p | p == id || Below(IndexOf(rows), p, id)
      ensures IsChildList(IndexOf(rows), id, p, Lookup(children, p))
    {
      ChildrenBelow(rows, p, id);
    }
  }

  lemma VisitComplete(idx: Index, id: string, out: seq<Tenant>)
    requires VisitInv(idx, id, out, Ids(out), [])
    ensures forall d :: d in Ids(out) <==> Below(idx, d, id)
  {
    forall d | Below(idx, d, id) ensures d in Ids(out) {
      var n: nat :| n >= 1 && Climb(idx, d, n) == Some(id);
      ClosedDownward(idx, id, Ids(out), d, n);
    }
  }

  /** What the two walks return agrees: a is among the rows above d exactly when d is
      among the rows below a, except where a has no row and d is left behind below it. */
  lemma WalksAreConverse(rows: seq<Tenant>, a: string, d: string, above: seq<Tenant>, below: seq<Tenant>)
    requires Ids(above) == AncestorIds(IndexOf(rows), d)
    requires forall x :: x in Ids(below) <==> Below(IndexOf(rows), x, a)
    ensures (a in Ids(above) <==> d in Ids(below)) <==> a in IndexOf(rows) || d !in Ids(below)
  {
    assert a in Ids(above) <==> a in IndexOf(rows) && Below(IndexOf(rows), d, a);
  }

  /** The parent column read directly: a row without a parent, or with an empty one, is a
      root and below nothing; any other row is below the id its column names. */
  lemma ParentColumn(idx: Index, id: string, a: string)
    requires id in idx
    ensures idx[id].parent in {None, Some("")} ==> !Below(idx, id, a) && AncestorIds(idx, id) == {}
    ensures idx[id].parent == Some(a) && a != "" ==> Below(idx, id, a)
  {
    assert Climb(idx, id, 0) == Some(id);
    assert Climb(idx, id, 1) == ParentOf(idx, id);
    if idx[id].parent in {None, Some("")} {
      forall n: nat | n >= 1 ensures Climb(idx, id, n) == None {
        ClimbStops(idx, id, 1, n);
      }
    }
  }

  /** True if ancestorId is on the path from id to the root. */
  method IsAncestorOf(rows: seq<Tenant>, ancestorId: string, id: string) returns (r: bool)
    ensures r <==> ancestorId in IndexOf(rows) && Below(IndexOf(rows), id, ancestorId)
  {
    var ancestors := GetAncestors(rows, id);
    r := exists a :: a in ancestors && a.id == ancestorId;
    assert r <==> ancestorId in Ids(ancestors);
  }

  /** The chain from the root-most reachable row down to the tenant. */
  method Path(rows: seq<Tenant>, id: string) returns (chain: seq<Tenant>)
    ensures chain == [] <==> id !in IndexOf(rows)
    ensures chain != [] ==> chain[|chain| - 1] == IndexOf(rows)[id]
    ensures forall i :: 0 <= i < |chain| - 1 ==> ParentOf(IndexOf(rows), chain[i + 1].id) == Some(chain[i].id)
    ensures Ids(chain) == AncestorIds(IndexOf(rows), id) + if id in IndexOf(rows) then {id} else {}
  {
    var idx := IndexOf(rows);
    if id !in idx {
      NoRowNoAncestors(idx, id);
      return [];
    }
    var ancestors := GetAncestors(rows, id);
    chain := Reversed(ancestors) + [idx[id]];
    ReversedChain(idx, id, ancestors, chain);
    ReversedIds(id, ancestors, chain);
  }

  function Reversed(ts: seq<Tenant>): (r: seq<Tenant>)
    ensures |r| == |ts| && forall i :: 0 <= i < |ts| ==> r[i] == ts[|ts| - 1 - i]
  {
    if ts == [] then [] else [ts[|ts| - 1]] + Reversed(ts[..|ts| - 1])
  }

  lemma ReversedIds(id: string, ancestors: seq<Tenant>, chain: seq<Tenant>)
    requires |chain| == |ancestors| + 1 && chain[|ancestors|].id == id
    requires forall i :: 0 <= i < |ancestors| ==> chain[i] == ancestors[|ancestors| - 1 - i]
    ensures Ids(chain) == Ids(ancestors) + {id}
  {
    var n := |ancestors|;
    forall t | t in ancestors ensures t in chain {
      var i :| 0 <= i < n && ancestors[i] == t;
      assert chain[n - 1 - i] == t;
    }
    assert chain[n] in chain;
  }

  lemma NoRowNoAncestors(idx: Index, id: string)
    requires id !in idx
    ensures AncestorIds(idx, id) == {}
  {
    forall a, n: nat | n >= 1 ensures Climb(idx, id, n) != Some(a) {
      assert Climb(idx, id, 0) == Some(id);
      assert Climb(idx, id, 1) == None;
      ClimbStops(idx, id, 1, n);
    }
  }

  lemma ReversedChain(idx: Index, id: string, ancestors: seq<Tenant>, chain: seq<Tenant>)
    requires IsChain(idx, id, ancestors) && |chain| == |ancestors| + 1 && chain[|ancestors|].id == id
    requires forall i :: 0 <= i < |ancestors| ==> chain[i] == ancestors[|ancestors| - 1 - i]
    ensures forall i :: 0 <= i < |ancestors| ==> ParentOf(idx, chain[i + 1].id) == Some(chain[i].id)
  {
    var n := |ancestors|;
    forall i | 0 <= i < n ensures ParentOf(idx, chain[i + 1].id) == Some(chain[i].id) {
      var k := n - 1 - i;
      assert Climb(idx, id, k + 1) == Some(ancestors[k].id);
      if k > 0 {
        assert Climb(idx, id, k - 1 + 1) == Some(ancestors[k - 1].id);
      }
    }
  }
}
