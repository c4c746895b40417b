/** Scopes: lookup of a variable by name, and the ghost view of the frame
    offsets held by a scope tree, which the layout pass is proved against. */
module Scope {

  import opened Common
  import opened Types

  /** `i` is the position of the first variable called `name`. */
  ghost predicate IsFirstNamed(vars: seq<Variable>, name: string, i: int)
  {
    0 <= i < |vars| && vars[i].name == name && forall j :: 0 <= j < i ==> vars[j].name != name
  }

  /** `iter().position(|v| v.name == name)` over a scope's own variables. */
  function FirstNamed(vars: seq<Variable>, name: string): (r: Option<nat>)
    ensures r.Some? ==> IsFirstNamed(vars, name, r.value)
    ensures r.None? <==> forall i :: 0 <= i < |vars| ==> vars[i].name != name
    decreases |vars|
  {
    if vars == [] then None
    else if vars[0].name == name then Some(0)
    else match FirstNamed(vars[1..], name)
      case None => None
      case Some(i) => Some(i + 1)
  }

  /** `iter().find(|v| v.name == name)`: the first variable with that name
      in the scope's own list; enclosing scopes are not searched. */
  function Lookup(vars: seq<Variable>, name: string): (r: Option<Variable>)
    ensures r.None? <==> forall i :: 0 <= i < |vars| ==> vars[i].name != name
    ensures r.Some? ==> exists i :: IsFirstNamed(vars, name, i) && vars[i] == r.value
  {
    match FirstNamed(vars, name)
    case None => None
    case Some(i) => Some(vars[i])
  }

  /** The offset fields of a list of variables, in order. */
  function StackFields(vs: seq<Variable>): (r: seq<Option<nat>>)
    ensures |r| == |vs|
    ensures forall i :: 0 <= i < |vs| ==> r[i] == vs[i].stack
  {
    seq(|vs|, i requires 0 <= i < |vs| => vs[i].stack)
  }

  /** Every offset field in a scope tree, as a multiset: its size is the
      number of variables in the tree. */
  ghost function Stacks(t: VarTree): multiset<Option<nat>>
    decreases t
  {
    multiset(StackFields(t.variables)) + ChildStacks(t.children, t)
  }

  /** The offset fields of a map of child scopes, summed in an arbitrary
      order of their ids (`ChildStacksAnyKey` shows the order is irrelevant). */
  ghost function ChildStacks(m: map<nat, VarTree>, parent: VarTree): multiset<Option<nat>>
    requires forall k :: k in m ==> m[k] < parent
    decreases parent, |m|
  {
    if m == map[] then multiset{}
    else var k :| k in m; Stacks(m[k]) + ChildStacks(m - {k}, parent)
  }

  /** The bound on the children used for termination is only a device. */
  lemma {:induction false} ChildStacksParent(m: map<nat, VarTree>, p: VarTree, q: VarTree)
    requires forall k :: k in m ==> m[k] < p
    requires forall k :: k in m ==> m[k] < q
    ensures ChildStacks(m, p) == ChildStacks(m, q)
    decreases |m|
  {
    if m != map[] {
      var k :| k in m && ChildStacks(m, p) == Stacks(m[k]) + ChildStacks(m - {k}, p);
      ChildStacksAnyKey(m, q, k);
      ChildStacksParent(m - {k}, p, q);
    }
  }

  /** Taking any one child out first gives the same multiset: the sum does
      not depend on the map's iteration order. */
  lemma {:induction false} ChildStacksAnyKey(m: map<nat, VarTree>, parent: VarTree, j: nat)
    requires forall k :: k in m ==> m[k] < parent
    requires j in m
    ensures ChildStacks(m, parent) == Stacks(m[j]) + ChildStacks(m - {j}, parent)
    decreases |m|
  {
    var k :| k in m && ChildStacks(m, parent) == Stacks(m[k]) + ChildStacks(m - {k}, parent);
    if k != j {
      assert j in m - {k};
      ChildStacksAnyKey(m - {k}, parent, j);
      assert m - {k} - {j} == m - {j} - {k};
      assert k in m - {j};
      ChildStacksAnyKey(m - {j}, parent, k);
    }
  }

  /** The offset fields of the children listed in `order`, in that order. */
  ghost function SeqStacks(m: map<nat, VarTree>, order: seq<nat>): multiset<Option<nat>>
    requires forall i :: 0 <= i < |order| ==> order[i] in m
    decreases |order|
  {
    if order == [] then multiset{}
    else SeqStacks(m, order[..|order| - 1]) + Stacks(m[order[|order| - 1]])
  }

  /** Listing one more child adds its offsets. */
  lemma SeqStacksSnoc(m: map<nat, VarTree>, order: seq<nat>, k: nat)
    requires forall i :: 0 <= i < |order| ==> order[i] in m
    requires k in m
    ensures SeqStacks(m, order + [k]) == SeqStacks(m, order) + Stacks(m[k])
  {
    assert (order + [k])[..|order|] == order;
  }

  /** Only the listed children matter to `SeqStacks`. */
  lemma {:induction false} SeqStacksFrame(m: map<nat, VarTree>, m': map<nat, VarTree>, order: seq<nat>)
    requires forall i :: 0 <= i < |order| ==> order[i] in m && order[i] in m' && m[order[i]] == m'[order[i]]
    ensures SeqStacks(m, order) == SeqStacks(m', order)
    decreases |order|
  {
    if order != [] {
      SeqStacksFrame(m, m', order[..|order| - 1]);
    }
  }

  /** Visiting the children in any duplicate-free order that covers them all
      gives the same multiset as `ChildStacks`. */
  lemma {:induction false} ChildStacksAnyOrder(m: map<nat, VarTree>, parent: VarTree, order: seq<nat>)
    requires forall k :: k in m ==> m[k] < parent
    requires forall i :: 0 <= i < |order| ==> order[i] in m
    requires forall k :: k in m ==> k in order
    requires forall i, j :: 0 <= i < j < |order| ==> order[i] != order[j]
    ensures SeqStacks(m, order) == ChildStacks(m, parent)
    decreases |order|
  {
    if order == [] {
      assert m == map[];
    } else {
      var last := order[|order| - 1];
      var init := order[..|order| - 1];
      var rest := m - {last};
      forall i | 0 <= i < |init| ensures init[i] in rest {
        assert order[i] != order[|order| - 1];
      }
      forall k | k in rest ensures k in init {
        var i :| 0 <= i < |order| && order[i] == k;
        assert i != |order| - 1;
      }
      ChildStacksAnyOrder(rest, parent, init);
      SeqStacksFrame(m, rest, init);
      ChildStacksAnyKey(m, parent, last);
    }
  }

  /** The two trees differ at most in their variables' offsets: same
      enclosing scope, same frame size field, the same variables in the same
      order with the same names and types, and the same child scopes under
      the same ids. */
  ghost predicate SameShape(a: VarTree, b: VarTree)
    decreases a
  {
    && a.father == b.father && a.stack == b.stack
    && |a.variables| == |b.variables|
    && (forall i :: 0 <= i < |a.variables| ==>
          a.variables[i].name == b.variables[i].name && a.variables[i].varType == b.variables[i].varType)
    && a.children.Keys == b.children.Keys
    && (forall k :: k in a.children ==> SameShape(a.children[k], b.children[k]))
  }

  /** Every tree has its own shape. */
  lemma {:induction false} SameShapeReflexive(t: VarTree)
    ensures SameShape(t, t)
    decreases t
  {
    forall k | k in t.children
      ensures SameShape(t.children[k], t.children[k])
    {
      SameShapeReflexive(t.children[k]);
    }
  }

  /** The offsets `start, start + 8, ...`, `n` of them, in order. */
  function SlotSeq(start: nat, n: nat): (r: seq<Option<nat>>)
    ensures |r| == n
    ensures forall i :: 0 <= i < n ==> r[i] == Some(start + 8 * i)
  {
    seq(n, i requires 0 <= i < n => Some(start + 8 * i))
  }

  /** The same offsets as a multiset. */
  function SlotRange(start: nat, n: nat): (r: multiset<Option<nat>>)
    ensures |r| == n
  {
    multiset(SlotSeq(start, n))
  }

  /** Consecutive ranges join up. */
  lemma SlotRangeSplit(start: nat, a: nat, b: nat)
    ensures SlotRange(start, a + b) == SlotRange(start, a) + SlotRange(start + 8 * a, b)
  {
    assert SlotSeq(start, a + b) == SlotSeq(start, a) + SlotSeq(start + 8 * a, b);
  }

  /** A slot range holds each offset at most once, every one of them set,
      8-byte aligned from `start` and below `start + 8 * n`. */
  lemma {:induction false} SlotRangeDistinct(start: nat, n: nat, o: Option<nat>)
    ensures SlotRange(start, n)[o] <= 1
    ensures o in SlotRange(start, n) <==>
              o.Some? && start <= o.value < start + 8 * n && (o.value - start) % 8 == 0
    decreases n
  {
    if n > 0 {
      SlotRangeDistinct(start, n - 1, o);
      assert SlotSeq(start, n) == SlotSeq(start, n - 1) + [Some(start + 8 * (n - 1))];
      if o.Some? && start <= o.value < start + 8 * n && (o.value - start) % 8 == 0 {
        var i := (o.value - start) / 8;
        assert SlotSeq(start, n)[i] == o;
      }
    }
  }

  /** Variables numbered `start, start + 8, ...` in list order hold exactly
      the slot range. */
  lemma OwnSlots(vs: seq<Variable>, start: nat, n: nat)
    requires n == |vs|
    requires forall i :: 0 <= i < n ==> vs[i].stack == Some(start + 8 * i)
    ensures multiset(StackFields(vs)) == SlotRange(start, n)
  {
    assert StackFields(vs) == SlotSeq(start, n);
  }
}
