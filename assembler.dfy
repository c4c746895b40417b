/** The code generator (`src/assembler.rs`): it lays out each function's
    stack frame in the analyser's scope tree, then appends the program's
    assembly to its buffer line by line. Every method is proved to append
    exactly the lines the functions of `Lowering` describe. */
module Assembler {

  import opened Common
  import opened Types
  import opened Scope
  import opened Lowering
  import Syntax

  /** What `calc_stack(vt, start)` makes of `vt`: only offsets change; the
      tree's own variables get `start, start + 8, ...` in list order; the
      `n` variables of the whole tree get the `n` slots from `start`, one
      each. */
  ghost predicate LaidOut(vt: VarTree, laid: VarTree, start: nat, n: nat)
  {
    && SameShape(laid, vt)
    && (forall i :: 0 <= i < |laid.variables| ==> laid.variables[i].stack == Some(start + 8 * i))
    && Stacks(laid) == SlotRange(start, n)
  }

  /** A function's scope after `asm_function` has laid it out from 0 and
      stored the frame size, 8 bytes per variable, in its `stack` field. */
  ghost predicate FrameLaidOut(before: VarTree, after: VarTree)
  {
    after.stack % 8 == 0 && LaidOut(before, after.(stack := before.stack), 0, after.stack / 8)
  }

  /** The frame holds every variable of the scope tree in a slot of its
      own: 8-byte aligned, inside the frame, no two alike; the frame size is
      8 bytes per variable; the variables and scopes themselves are
      unchanged. */
  lemma FrameHoldsEveryVariable(before: VarTree, after: VarTree)
    requires FrameLaidOut(before, after)
    ensures SameShape(after.(stack := before.stack), before)
    ensures after.stack == 8 * |Stacks(after)|
    ensures forall o :: o in Stacks(after) ==>
              o.Some? && o.value < after.stack && o.value % 8 == 0 && Stacks(after)[o] == 1
    ensures forall i :: 0 <= i < |after.variables| ==>
              after.variables[i].stack == Some(8 * i) && 8 * i < after.stack
  {
    var n := after.stack / 8;
    var t := after.(stack := before.stack);
    ChildStacksParent(after.children, after, t);
    FrameSlots(Stacks(after), Stacks(t), n);
    OwnVariablesCounted(after, |after.variables|);
  }

  /** Every slot of a range of `n` from 0 is set, aligned, below `8 * n`
      and held once. */
  lemma FrameSlots(x: multiset<Option<nat>>, y: multiset<Option<nat>>, n: nat)
    requires x == y
    requires y == SlotRange(0, n)
    ensures |x| == n
    ensures forall o :: o in x ==> o.Some? && o.value < 8 * n && o.value % 8 == 0 && x[o] == 1
  {
    forall o | o in x
      ensures o.Some? && o.value < 8 * n && o.value % 8 == 0 && x[o] == 1
    {
      SlotRangeDistinct(0, n, o);
    }
  }

  /** A tree holds at least its own variables. */
  lemma OwnVariablesCounted(t: VarTree, own: nat)
    requires own == |t.variables|
    ensures own <= |Stacks(t)|
  {
  }

  /** A tree's own offsets and its children's, taken in a covering order. */
  lemma StacksInOrder(t: VarTree, order: seq<nat>)
    requires forall i :: 0 <= i < |order| ==> order[i] in t.children
    requires forall k :: k in t.children ==> k in order
    requires forall i, j :: 0 <= i < j < |order| ==> order[i] != order[j]
    ensures Stacks(t) == multiset(StackFields(t.variables)) + SeqStacks(t.children, order)
  {
    ChildStacksAnyOrder(t.children, t, order);
  }

  /** The own variables numbered from `start` and the children, listed in
      `order`, filling the `c` slots after them fill `n` slots in all. */
  lemma StacksLaidOut(laid: VarTree, start: nat, own: nat, base: nat, c: nat, order: seq<nat>, n: nat)
    requires own == |laid.variables|
    requires forall j :: 0 <= j < own ==> laid.variables[j].stack == Some(start + 8 * j)
    requires forall i :: 0 <= i < |order| ==> order[i] in laid.children
    requires forall k :: k in laid.children ==> k in order
    requires forall i, j :: 0 <= i < j < |order| ==> order[i] != order[j]
    requires base == start + 8 * own
    requires SeqStacks(laid.children, order) == SlotRange(base, c)
    requires n == own + c
    ensures Stacks(laid) == SlotRange(start, n)
  {
    StacksInOrder(laid, order);
    OwnSlots(laid.variables, start, own);
    JoinSlots(multiset(StackFields(laid.variables)), SeqStacks(laid.children, order), start, own, base, c, n);
  }

  /** `vars` is `vs` with the same names and types, numbered in order
      from `start` in steps of 8. */
  ghost predicate Renumbering(vs: seq<Variable>, vars: seq<Variable>, start: nat)
  {
    && |vars| == |vs|
    && (forall j :: 0 <= j < |vs| ==>
          && vars[j].name == vs[j].name && vars[j].varType == vs[j].varType
          && vars[j].stack == Some(start + 8 * j))
  }

  /** Renumbering the own variables and replacing the children by trees of
      the same shape keeps the shape. */
  lemma RenumberedShape(vt: VarTree, laid: VarTree, start: nat)
    requires laid.father == vt.father && laid.stack == vt.stack
    requires Renumbering(vt.variables, laid.variables, start)
    requires laid.children.Keys == vt.children.Keys
    requires forall k :: k in laid.children ==> SameShape(laid.children[k], vt.children[k])
    ensures SameShape(laid, vt)
  {
  }

  /** The last step of `calc_stack`: the own variables numbered from
      `start`, then the children laid out after them, lay out the tree. */
  lemma TreeLaidOut(vt: VarTree, vars: seq<Variable>, children: map<nat, VarTree>, order: seq<nat>,
                    start: nat, own: nat, base: nat, c: nat, next: nat, n: nat)
    requires own == |vars| && Renumbering(vt.variables, vars, start)
    requires base == start + 8 * own
    requires ChildrenLaidOut(vt, base, children, order, c, {}, next)
    requires n == own + c
    ensures next == start + 8 * n
    ensures LaidOut(vt, VarTree(vt.father, vars, children, vt.stack), start, n)
  {
    var laid := VarTree(vt.father, vars, children, vt.stack);
    RenumberedShape(vt, laid, start);
    StacksLaidOut(laid, start, own, base, c, order, n);
  }

  /** The ids of the functions named in `order`. */
  ghost function Ids(order: seq<string>, functions: map<string, Function>): set<nat>
    requires forall i :: 0 <= i < |order| ==> order[i] in functions
  {
    set i | 0 <= i < |order| :: functions[order[i]].id
  }

  /** Two consecutive ranges, named `x` and `y`, join up. */
  lemma JoinSlots(x: multiset<Option<nat>>, y: multiset<Option<nat>>, start: nat, a: nat, mid: nat, b: nat, n: nat)
    requires x == SlotRange(start, a)
    requires mid == start + 8 * a
    requires y == SlotRange(mid, b)
    requires n == a + b
    ensures x + y == SlotRange(start, n)
  {
    SlotRangeSplit(start, a, b);
  }

  /** Replacing the child `k`, not yet listed, and then listing it adds the
      offsets of its replacement. */
  lemma ReplaceAndList(before: map<nat, VarTree>, order: seq<nat>, k: nat, sub: VarTree,
                       x: multiset<Option<nat>>, y: multiset<Option<nat>>)
    requires k in before
    requires forall i :: 0 <= i < |order| ==> order[i] in before && order[i] != k
    requires SeqStacks(before, order) == x
    requires Stacks(sub) == y
    ensures SeqStacks(before[k := sub], order + [k]) == x + y
  {
    var after := before[k := sub];
    SeqStacksFrame(before, after, order);
    SeqStacksSnoc(after, order, k);
  }

  /** One pass of the child loop of `calc_stack`: the children listed so
      far fill the `a` slots from `start`; the child `k`, laid out right
      after them into `b` slots, extends the range. */
  lemma LayOutStep(before: map<nat, VarTree>, order: seq<nat>, k: nat, sub: VarTree,
                   start: nat, a: nat, next: nat, b: nat, n: nat)
    requires k in before
    requires forall i :: 0 <= i < |order| ==> order[i] in before && order[i] != k
    requires SeqStacks(before, order) == SlotRange(start, a)
    requires next == start + 8 * a
    requires Stacks(sub) == SlotRange(next, b)
    requires n == a + b
    ensures SeqStacks(before[k := sub], order + [k]) == SlotRange(start, n)
  {
    ReplaceAndList(before, order, k, sub, SlotRange(start, a), SlotRange(next, b));
    JoinSlots(SlotRange(start, a), SlotRange(next, b), start, a, next, b, n);
  }

  /** Storing the size of a frame laid out from 0 in the scope's `stack`
      field gives a laid-out frame. */
  lemma FrameStored(vt: VarTree, laid: VarTree, n: nat)
    requires LaidOut(vt, laid, 0, n)
    ensures FrameLaidOut(vt, laid.(stack := 8 * n))
  {
    assert laid.(stack := 8 * n).(stack := vt.stack) == laid;
    assert 8 * n / 8 == n;
  }

  /** The invariant of the child loop of `calc_stack`: the children listed
      in `order` are laid out, in that order, into the `count` slots from
      `start`, and `next` is the offset after them; the `pending` ones are
      untouched; every child keeps its shape. */
  ghost predicate ChildrenLaidOut(vt: VarTree, start: nat, children: map<nat, VarTree>, order: seq<nat>,
                                  count: nat, pending: set<nat>, next: nat)
  {
    && ChildrenVisited(vt, children, order, pending)
    && next == start + 8 * count
    && SeqStacks(children, order) == SlotRange(start, count)
  }

  /** The bookkeeping part of the child loop's invariant: every child is
      either pending, and untouched, or listed once in `order`; every child
      keeps its shape. */
  ghost predicate ChildrenVisited(vt: VarTree, children: map<nat, VarTree>, order: seq<nat>, pending: set<nat>)
  {
    && ChildrenShaped(vt, children)
    && (forall k :: k in pending ==> k in vt.children && children[k] == vt.children[k])
    && Visited(vt.children.Keys, order, pending)
  }

  /** The children are under the same ids and have the same shapes. */
  ghost predicate ChildrenShaped(vt: VarTree, children: map<nat, VarTree>)
  {
    && children.Keys == vt.children.Keys
    && (forall k :: k in children ==> SameShape(children[k], vt.children[k]))
  }

  /** Every key is pending or listed, no listed key is pending, and none is
      listed twice. */
  ghost predicate Visited(keys: set<nat>, order: seq<nat>, pending: set<nat>)
  {
    && pending <= keys
    && (forall i :: 0 <= i < |order| ==> order[i] in keys && order[i] !in pending)
    && (forall k :: k in keys ==> k in pending || k in order)
    && (forall i, j :: 0 <= i < j < |order| ==> order[i] != order[j])
  }

  /** Taking a member out of a set makes it smaller. */
  lemma Shrinks<T>(s: set<T>, x: T)
    requires x in s
    ensures |s - {x}| < |s|
  {
  }

  /** Laying out one pending child into the `b` slots at `next` keeps the
      loop invariant. */
  lemma ChildStep(vt: VarTree, start: nat, children: map<nat, VarTree>, order: seq<nat>, count: nat,
                  pending: set<nat>, next: nat, k: nat, sub: VarTree, after: nat, b: nat, count': nat)
    requires ChildrenLaidOut(vt, start, children, order, count, pending, next)
    requires k in pending
    requires SameShape(sub, vt.children[k])
    requires Stacks(sub) == SlotRange(next, b)
    requires after == next + 8 * b
    requires count' == count + b
    ensures ChildrenLaidOut(vt, start, children[k := sub], order + [k], count', pending - {k}, after)
  {
    VisitChild(vt, children, order, pending, k, sub);
    LayOutStep(children, order, k, sub, start, count, next, b, count');
  }

  /** Visiting one pending child keeps the bookkeeping part. */
  lemma VisitChild(vt: VarTree, children: map<nat, VarTree>, order: seq<nat>, pending: set<nat>, k: nat, sub: VarTree)
    requires ChildrenVisited(vt, children, order, pending)
    requires k in pending
    requires SameShape(sub, vt.children[k])
    ensures ChildrenVisited(vt, children[k := sub], order + [k], pending - {k})
    ensures forall i :: 0 <= i < |order| ==> order[i] in children && order[i] != k
  {
    ShapedStep(vt, children, k, sub);
    VisitedStep(vt.children.Keys, order, pending, k);
  }

  /** Replacing one child by a tree of its shape keeps the shapes. */
  lemma ShapedStep(vt: VarTree, children: map<nat, VarTree>, k: nat, sub: VarTree)
    requires ChildrenShaped(vt, children)
    requires k in vt.children && SameShape(sub, vt.children[k])
    ensures ChildrenShaped(vt, children[k := sub])
  {
    var children' := children[k := sub];
    forall c | c in children'
      ensures SameShape(children'[c], vt.children[c])
    {
      if c != k {
        assert children'[c] == children[c];
      }
    }
  }

  /** Moving one key from the pending set to the end of the list keeps the
      bookkeeping. */
  lemma VisitedStep(keys: set<nat>, order: seq<nat>, pending: set<nat>, k: nat)
    requires Visited(keys, order, pending)
    requires k in pending
    ensures Visited(keys, order + [k], pending - {k})
    ensures forall i :: 0 <= i < |order| ==> order[i] != k
  {
    var order', pending' := order + [k], pending - {k};
    forall i | 0 <= i < |order'|
      ensures order'[i] in keys && order'[i] !in pending'
    {
      if i < |order| {
        assert order'[i] == order[i];
      }
    }
    forall i, j | 0 <= i < j < |order'|
      ensures order'[i] != order'[j]
    {
      assert order'[i] == order[i];
      if j < |order| {
        assert order'[j] == order[j];
      }
    }
    forall c | c in keys
      ensures c in pending' || c in order'
    {
      if c == k {
        assert order'[|order|] == k;
      } else if c !in pending {
        var i :| 0 <= i < |order| && order[i] == c;
        assert order'[i] == c;
      }
    }
  }

  /** The scopes of the functions listed in `order`, each at most once,
      are laid out; every other scope of `registry0` is as it was. */
  ghost predicate OthersLaidOut(functions: map<string, Function>, registry0: map<nat, VarTree>,
                                registry: map<nat, VarTree>, order: seq<string>)
  {
    && Listed(order, functions, registry)
    && registry.Keys == registry0.Keys
    && (forall i, j :: 0 <= i < j < |order| ==> order[i] != order[j])
    && (forall id :: id in registry0 && id !in Ids(order, functions) ==> registry[id] == registry0[id])
    && (forall i :: 0 <= i < |order| ==>
          FrameLaidOut(registry0[functions[order[i]].id], registry[functions[order[i]].id]))
  }

  /** The loop over the other functions has `names` still to do and has
      done `order`: between them they cover `keys`, and no name is in both. */
  ghost predicate Pending(names: set<string>, order: seq<string>, keys: set<string>)
  {
    && names <= keys
    && (forall i :: 0 <= i < |order| ==> order[i] !in names)
    && (forall name :: name in keys ==> name in names || name in order)
  }

  /** Moving one name from the pending set to the list keeps the cover. */
  lemma PendingStep(names: set<string>, order: seq<string>, keys: set<string>, name: string)
    requires Pending(names, order, keys) && name in names
    ensures Pending(names - {name}, order + [name], keys)
    ensures forall i :: 0 <= i < |order| ==> order[i] != name
  {
  }

  /** One pass of the loop over the other functions: laying out the frame
      of a function not yet listed, whose id no other function has, keeps
      the listed frames and adds its own; the functions listed before keep
      their code, and the new one's code follows it. */
  lemma OthersStep(functions: map<string, Function>, registry0: map<nat, VarTree>, registry: map<nat, VarTree>,
                   registry': map<nat, VarTree>, order: seq<string>, name: string,
                   externs: map<string, ExternFunction>)
    requires OthersLaidOut(functions, registry0, registry, order)
    requires forall n1, n2 :: n1 in functions && n2 in functions && n1 != n2 ==> functions[n1].id != functions[n2].id
    requires name in functions && functions[name].id in registry
    requires forall i :: 0 <= i < |order| ==> order[i] != name
    requires functions[name].id in registry'
    requires registry' == registry[functions[name].id := registry'[functions[name].id]]
    requires FrameLaidOut(registry[functions[name].id], registry'[functions[name].id])
    requires OthersAsm(order, functions, registry, externs).outcome.Ok?
    ensures OthersLaidOut(functions, registry0, registry', order + [name])
    ensures var f := functions[name];
            var e := FunctionAsm(f, registry'[f.id], externs);
            OthersAsm(order + [name], functions, registry', externs) ==
            Emission(OthersAsm(order, functions, registry, externs).lines + e.lines + (if e.outcome.Ok? then [""] else []),
                     e.outcome)
  {
    OthersLaidOutStep(functions, registry0, registry, registry', order, name);
    OthersAsmStep(functions, registry, registry', order, name, externs);
  }

  /** The bookkeeping half of `OthersStep`: the listed frames are kept and
      the new one is added. */
  lemma OthersLaidOutStep(functions: map<string, Function>, registry0: map<nat, VarTree>, registry: map<nat, VarTree>,
                          registry': map<nat, VarTree>, order: seq<string>, name: string)
    requires OthersLaidOut(functions, registry0, registry, order)
    requires forall n1, n2 :: n1 in functions && n2 in functions && n1 != n2 ==> functions[n1].id != functions[n2].id
    requires name in functions && functions[name].id in registry
    requires forall i :: 0 <= i < |order| ==> order[i] != name
    requires functions[name].id in registry'
    requires registry' == registry[functions[name].id := registry'[functions[name].id]]
    requires FrameLaidOut(registry[functions[name].id], registry'[functions[name].id])
    ensures OthersLaidOut(functions, registry0, registry', order + [name])
  {
    var id := functions[name].id;
    var order' := order + [name];
    assert id !in Ids(order, functions);
    assert registry[id] == registry0[id];
    IdsSnoc(order, functions, name);
    forall i | 0 <= i < |order'|
      ensures order'[i] in functions && functions[order'[i]].id in registry'
      ensures FrameLaidOut(registry0[functions[order'[i]].id], registry'[functions[order'[i]].id])
    {
      if i < |order| {
        assert order'[i] == order[i];
        assert functions[order[i]].id != id;
      }
    }
    forall x | x in registry0 && x !in Ids(order', functions)
      ensures registry'[x] == registry0[x]
    {
      assert x != id;
    }
  }

  /** The code half of `OthersStep`: the functions listed before keep their
      code, and the new one's code follows it. */
  lemma OthersAsmStep(functions: map<string, Function>, registry: map<nat, VarTree>,
                      registry': map<nat, VarTree>, order: seq<string>, name: string,
                      externs: map<string, ExternFunction>)
    requires Listed(order, functions, registry)
    requires forall n1, n2 :: n1 in functions && n2 in functions && n1 != n2 ==> functions[n1].id != functions[n2].id
    requires name in functions && functions[name].id in registry'
    requires forall i :: 0 <= i < |order| ==> order[i] != name
    requires registry' == registry[functions[name].id := registry'[functions[name].id]]
    requires OthersAsm(order, functions, registry, externs).outcome.Ok?
    ensures Listed(order + [name], functions, registry')
    ensures var f := functions[name];
            var e := FunctionAsm(f, registry'[f.id], externs);
            OthersAsm(order + [name], functions, registry', externs) ==
            Emission(OthersAsm(order, functions, registry, externs).lines + e.lines + (if e.outcome.Ok? then [""] else []),
                     e.outcome)
  {
    var order' := order + [name];
    assert order'[..|order|] == order;
    forall i | 0 <= i < |order|
      ensures registry'[functions[order[i]].id] == registry[functions[order[i]].id]
    {
    }
    OthersAsmFrame(order, functions, registry, registry', externs);
  }

  /** Listing one more function adds its id. */
  lemma IdsSnoc(order: seq<string>, functions: map<string, Function>, name: string)
    requires forall i :: 0 <= i < |order| ==> order[i] in functions
    requires name in functions
    ensures Ids(order + [name], functions) == Ids(order, functions) + {functions[name].id}
  {
    var order' := order + [name];
    forall x | x in Ids(order', functions)
      ensures x in Ids(order, functions) + {functions[name].id}
    {
      var i :| 0 <= i < |order'| && functions[order'[i]].id == x;
      if i < |order| {
        assert order'[i] == order[i];
      }
    }
    forall x | x in Ids(order, functions) + {functions[name].id}
      ensures x in Ids(order', functions)
    {
      if x == functions[name].id {
        assert order'[|order|] == name;
      } else {
        var i :| 0 <= i < |order| && functions[order[i]].id == x;
        assert order'[i] == order[i];
      }
    }
  }

  class Assembler {
    const syntax: Syntax.Syntax
    var asm: seq<string>

    /** `Assembler::new`: an empty buffer over the analysed program. */
    constructor (syntax: Syntax.Syntax)
      ensures this.syntax == syntax && asm == []
    {
      this.syntax := syntax;
      asm := [];
    }

    /** `push_asm`: appends one line. */
    method PushAsm(s: string)
      modifies this`asm
      ensures asm == old(asm) + [s]
    {
      asm := asm + [s];
    }

    /** `calc_stack`: numbers the tree's variables from `start` in steps of
        8, its own variables first, then each child scope in turn. */
    static method CalcStack(vt: VarTree, start: nat) returns (laid: VarTree, next: nat, n: nat)
      ensures next == start + 8 * n
      ensures LaidOut(vt, laid, start, n)
      decreases vt, 2
    {
      var vars := NumberVariables(vt.variables, start);
      var own := |vars|;
      var children;
      ghost var order;
      var c;
      var base := start + 8 * |vars|;
      children, next, order, c := LayOutChildren(vt, base);
      laid := VarTree(vt.father, vars, children, vt.stack);
      n := own + c;
      TreeLaidOut(vt, vars, children, order, start, own, base, c, next, n);
    }

    /** The loop of `calc_stack` over the tree's own variables. */
    static method NumberVariables(vs: seq<Variable>, start: nat) returns (vars: seq<Variable>)
      ensures Renumbering(vs, vars, start)
    {
      vars := vs;
      var stack := start;
      var i := 0;
      while i < |vars|
        invariant 0 <= i <= |vars| == |vs|
        invariant stack == start + 8 * i
        invariant forall j :: 0 <= j < i ==>
                    && vars[j].name == vs[j].name && vars[j].varType == vs[j].varType
                    && vars[j].stack == Some(start + 8 * j)
        invariant forall j :: i <= j < |vars| ==> vars[j] == vs[j]
      {
        vars := vars[i := vars[i].(stack := Some(stack))];
        stack := stack + 8;
        i := i + 1;
      }
    }

    /** The loop of `calc_stack` over the child scopes, in the map's
        iteration order (any order), threading the running offset. */
    static method LayOutChildren(vt: VarTree, start: nat)
      returns (children: map<nat, VarTree>, next: nat, ghost order: seq<nat>, count: nat)
      ensures ChildrenLaidOut(vt, start, children, order, count, {}, next)
      decreases vt, 1
    {
      SameShapeReflexive(vt);
      children := vt.children;
      next := start;
      order := [];
      count := 0;
      var pending := vt.children.Keys;
      while pending != {}
        invariant ChildrenLaidOut(vt, start, children, order, count, pending, next)
        decreases |pending|
      {
        var k :| k in pending;
        children, next, order, count := LayOutChild(vt, start, children, order, count, pending, next, k);
        Shrinks(pending, k);
        pending := pending - {k};
      }
    }

    /** One pass of the child loop: the pending child `k`, picked in any
        order, laid out from the running offset. */
    static method LayOutChild(vt: VarTree, start: nat, children: map<nat, VarTree>, ghost order: seq<nat>,
                              count: nat, ghost pending: set<nat>, next: nat, k: nat)
      returns (children': map<nat, VarTree>, next': nat, ghost order': seq<nat>, count': nat)
      requires k in pending
      requires ChildrenLaidOut(vt, start, children, order, count, pending, next)
      ensures ChildrenLaidOut(vt, start, children', order', count', pending - {k}, next')
      decreases vt, 0
    {
      var sub, after, b;
      sub, after, b := CalcStack(vt.children[k], next);
      count' := count + b;
      ChildStep(vt, start, children, order, count, pending, next, k, sub, after, b, count');
      children' := children[k := sub];
      order' := order + [k];
      next' := after;
    }

    /** `find_variable`: the first variable with that name in the scope's
        own list; enclosing scopes are not searched. */
    method FindVariable(vt: VarTree, name: string) returns (r: Option<Variable>)
      ensures r == Lookup(vt.variables, name)
    {
      var i := 0;
      while i < |vt.variables|
        invariant 0 <= i <= |vt.variables|
        invariant forall j :: 0 <= j < i ==> vt.variables[j].name != name
      {
        if vt.variables[i].name == name {
          assert IsFirstNamed(vt.variables, name, i);
          return Some(vt.variables[i]);
        }
        i := i + 1;
      }
      return None;
    }

    /** `asm_pass_param`. */
    method AsmPassParam(p: Parameter, dest: string, funcId: nat) returns (out: Outcome)
      requires funcId in syntax.variables.children
      modifies this`asm
      ensures var e := PassParam(p, dest, syntax.variables.children[funcId]);
              asm == old(asm) + e.lines && out == e.outcome
    {
      if p.varType == Int {
        if !p.isLiteral {
          return Unsupported("non-literal integer argument");
        }
        if p.value.None? {
          return Fatal(Unwrap);
        }
        PushAsm(Instr("movq", "$" + p.value.value + ", %" + dest));
      } else if p.varType == String {
        if p.isLiteral {
          if p.id.None? {
            return Fatal(Unwrap);
          }
          PushAsm(LoadLabel(p.id.value, dest));
        } else {
          var vt := syntax.variables.children[funcId];
          var v := FindVariable(vt, p.name);
          if v.None? {
            return Err("Cannot find variable " + p.name);
          }
          if v.value.stack.None? {
            return Fatal(Unwrap);
          }
          PushAsm(Instr("movq", Slot(v.value.stack.value) + ", %" + dest));
        }
      } else if p.varType == Void {
        return Err("Cannot pass void type");
      } else if p.varType == VarArgs {
        return Err("Cannot pass varargs");
      } else {
        return Unsupported("char or bool argument");
      }
      return Ok;
    }

    /** `asm_push_parameter`; the function id is unused, as in the source. */
    method AsmPushParameter(p: Parameter, funcId: nat) returns (out: Outcome)
      modifies this`asm
      ensures asm == old(asm) + PushParam(p).lines && out == PushParam(p).outcome
    {
      if p.varType != String {
        return Unsupported("pushed argument of this type");
      }
      if p.id.None? {
        return Fatal(Unwrap);
      }
      PushAsm(LoadLabel(p.id.value, "rax"));
      PushAsm(Instr("pushq", "%rax"));
      return Ok;
    }

    /** `asm_pass_parameters`: the first six arguments into `REGS`, the rest
        pushed, in ascending index order. */
    method AsmPassParameters(params: seq<Parameter>, funcId: nat) returns (out: Outcome)
      requires funcId in syntax.variables.children
      modifies this`asm
      ensures var e := PassParams(params, syntax.variables.children[funcId]);
              asm == old(asm) + e.lines && out == e.outcome
    {
      ghost var scope := syntax.variables.children[funcId];
      var idx := 0;
      while idx < |params|
        invariant 0 <= idx <= |params|
        invariant PassParams(params[..idx], scope).outcome.Ok?
        invariant asm == old(asm) + PassParams(params[..idx], scope).lines
      {
        var o;
        if idx > 5 {
          o := AsmPushParameter(params[idx], funcId);
        } else {
          o := AsmPassParam(params[idx], Regs[idx], funcId);
        }
        PassParamsStep(params, scope, idx);
        AppendTwice(old(asm), PassParams(params[..idx], scope).lines, ParamAsm(params[idx], idx, scope).lines);
        if !o.Ok? {
          PassParamsStopped(params, scope, idx);
          return o;
        }
        idx := idx + 1;
      }
      assert params[..idx] == params;
      return Ok;
    }

    /** The `Assignment` arm of `asm_function`. */
    method AsmAssignment(target: string, op: Grammar.Rule, p: Parameter, funcId: nat) returns (out: Outcome)
      requires funcId in syntax.variables.children
      modifies this`asm
      ensures var e := AssignmentAsm(target, op, p, syntax.variables.children[funcId]);
              asm == old(asm) + e.lines && out == e.outcome
    {
      PushAsm("# Assignment");
      var vt := syntax.variables.children[funcId];
      var v := FindVariable(vt, target);
      if v.None? {
        return Err("Cannot find variable " + target);
      }
      if op.Assign? {
        if p.varType != String {
          return Unsupported("assignment of this type");
        }
        if p.id.None? {
          return Fatal(Unwrap);
        }
        PushAsm(LoadLabel(p.id.value, "rax"));
        if v.value.stack.None? {
          return Fatal(Unwrap);
        }
        PushAsm("  movq %rax, " + Slot(v.value.stack.value));
        return Ok;
      } else if Syntax.IsMathOp(op) || Syntax.IsLogicOp(op) {
        return Unsupported("compound assignment");
      }
      return Fatal("Unknown assignment");
    }

    /** One pass of the statement loop of `asm_function`. */
    method AsmStatement(s: Statement, funcId: nat) returns (out: Outcome)
      requires funcId in syntax.variables.children
      modifies this`asm
      ensures var e := StatementAsm(s, syntax.variables.children[funcId], syntax.externs);
              asm == old(asm) + e.lines && out == e.outcome
    {
      ghost var scope := syntax.variables.children[funcId];
      if s.Block? {
        return Unsupported("block statement");
      } else if s.FunctionCall? {
        PushAsm("# Function call");
        out := AsmPassParameters(s.call.parameters, funcId);
        ghost var pass := PassParams(s.call.parameters, scope);
        AppendTwice(old(asm), ["# Function call"], pass.lines);
        if !out.Ok? {
          return;
        }
        PushAsm("  call " + s.call.name);
        AppendTwice(old(asm), ["# Function call"] + pass.lines, ["  call " + s.call.name]);
      } else if s.ExternFunctionCall? {
        PushAsm("# Extern function call");
        out := AsmPassParameters(s.call.parameters, funcId);
        ghost var pass := PassParams(s.call.parameters, scope);
        ghost var head := ["# Extern function call"] + pass.lines;
        AppendTwice(old(asm), ["# Extern function call"], pass.lines);
        if !out.Ok? {
          return;
        }
        if s.call.name == "printf" {
          if s.call.name !in syntax.externs {
            return Fatal(Unwrap);
          }
          var f := syntax.externs[s.call.name];
          if VarArgs in f.parameters {
            PushAsm("  xor %eax, %eax");
          }
        }
        ghost var vc := VectorCount(s.call.name, syntax.externs);
        assert asm == old(asm) + head + vc;
        AppendTwice(old(asm), head, vc);
        PushAsm("  call " + s.call.name + "@PLT");
        AppendTwice(old(asm), head + vc, ["  call " + s.call.name + "@PLT"]);
      } else if s.Return? {
        PushAsm("# Return");
        PushAsm("  movq %rbp, %rsp");
        PushAsm("  popq %rbp");
        return Unsupported("return statement");
      } else {
        out := AsmAssignment(s.target, s.op, s.value, funcId);
      }
    }

    /** The statement loop of `asm_function`, stopping at the first
        statement that does not succeed. */
    method AsmStatements(ss: seq<Statement>, funcId: nat) returns (out: Outcome)
      requires funcId in syntax.variables.children
      modifies this`asm
      ensures var e := BodyAsm(ss, syntax.variables.children[funcId], syntax.externs);
              asm == old(asm) + e.lines && out == e.outcome
    {
      ghost var scope := syntax.variables.children[funcId];
      var i := 0;
      while i < |ss|
        invariant 0 <= i <= |ss|
        invariant BodyAsm(ss[..i], scope, syntax.externs).outcome.Ok?
        invariant asm == old(asm) + BodyAsm(ss[..i], scope, syntax.externs).lines
      {
        var o := AsmStatement(ss[i], funcId);
        BodyAsmStep(ss, scope, syntax.externs, i);
        AppendTwice(old(asm), BodyAsm(ss[..i], scope, syntax.externs).lines,
                    StatementAsm(ss[i], scope, syntax.externs).lines);
        if !o.Ok? {
          BodyAsmStopped(ss, scope, syntax.externs, i);
          return o;
        }
        i := i + 1;
      }
      assert ss[..i] == ss;
      return Ok;
    }

    /** `asm_function`: lays out the function's scope from offset 0 and
        stores the frame size in it, then emits the prologue, the body and,
        when the body succeeds, the epilogue. */
    method AsmFunction(f: Function) returns (out: Outcome)
      modifies this`asm, syntax`variables
      ensures f.id !in old(syntax.variables.children) ==>
                out == Fatal(Unwrap) && asm == old(asm) && syntax.variables == old(syntax.variables)
      ensures f.id in old(syntax.variables.children) ==>
                && f.id in syntax.variables.children
                && syntax.variables ==
                   old(syntax.variables).(children := old(syntax.variables.children)[f.id := syntax.variables.children[f.id]])
                && FrameLaidOut(old(syntax.variables.children[f.id]), syntax.variables.children[f.id])
                && asm == old(asm) + FunctionAsm(f, syntax.variables.children[f.id], syntax.externs).lines
                && out == FunctionAsm(f, syntax.variables.children[f.id], syntax.externs).outcome
    {
      if f.id !in syntax.variables.children {
        return Fatal(Unwrap);
      }
      var stack := AsmFrame(f.id);
      out := AsmCode(f, stack);
    }

    /** The frame layout of `asm_function`: the scope `id` is laid out from
        offset 0 and stores its frame size; no other scope changes. */
    method AsmFrame(id: nat) returns (stack: nat)
      requires id in syntax.variables.children
      modifies syntax`variables
      ensures id in syntax.variables.children
      ensures syntax.variables ==
              old(syntax.variables).(children := old(syntax.variables.children)[id := syntax.variables.children[id]])
      ensures FrameLaidOut(old(syntax.variables.children[id]), syntax.variables.children[id])
      ensures stack == syntax.variables.children[id].stack
    {
      var vt := syntax.variables.children[id];
      var laid;
      ghost var n;
      laid, stack, n := CalcStack(vt, 0);
      FrameStored(vt, laid, n);
      laid := laid.(stack := stack);
      syntax.variables := syntax.variables.(children := syntax.variables.children[id := laid]);
    }

    /** The code of `asm_function` once the frame, of size `stack`, is laid
        out: prologue, body, and the epilogue when the body succeeds. */
    method AsmCode(f: Function, stack: nat) returns (out: Outcome)
      requires f.id in syntax.variables.children
      requires stack == syntax.variables.children[f.id].stack
      modifies this`asm
      ensures asm == old(asm) + FunctionAsm(f, syntax.variables.children[f.id], syntax.externs).lines
      ensures out == FunctionAsm(f, syntax.variables.children[f.id], syntax.externs).outcome
    {
      AsmPrologue(f.name, stack);
      ghost var prologue := Prologue(f.name, stack);
      out := AsmStatements(f.code.statements, f.id);
      ghost var body := BodyAsm(f.code.statements, syntax.variables.children[f.id], syntax.externs);
      AppendTwice(old(asm), prologue, body.lines);
      if !out.Ok? {
        assert prologue + body.lines + [] == prologue + body.lines;
        return;
      }
      AsmEpilogue();
      AppendTwice(old(asm), prologue + body.lines, Epilogue);
    }

    /** The prologue of `asm_function`: the label, the frame-pointer setup
        and, for a frame that is not empty, the room for it. */
    method AsmPrologue(name: string, stack: nat)
      modifies this`asm
      ensures asm == old(asm) + Prologue(name, stack)
    {
      PushAsm(name + ":");
      PushAsm("  pushq %rbp");
      PushAsm("  movq %rsp, %rbp");
      if stack > 0 {
        PushAsm(SubLine(stack));
      }
    }

    /** The epilogue of `asm_function`: return 0 and restore the caller's
        frame. */
    method AsmEpilogue()
      modifies this`asm
      ensures asm == old(asm) + Epilogue
    {
      PushAsm("# End Function");
      PushAsm("  xor  %eax, %eax");
      PushAsm("  movq %rbp, %rsp");
      PushAsm("  popq %rbp");
      PushAsm("  ret");
    }

    /** The data section of `assemble`: directives, then one label and
        `.string` line per pool entry, then an empty line. */
    method AsmHeader()
      modifies this`asm
      ensures asm == old(asm) + Header(syntax.strings)
    {
      PushAsm(".text");
      PushAsm(".section\t.rodata");
      PushAsm(".align 8");
      var id := 0;
      while id < |syntax.strings|
        invariant 0 <= id <= |syntax.strings|
        invariant asm == old(asm) + [".text", ".section\t.rodata", ".align 8"] + PoolLines(syntax.strings[..id])
      {
        var str := syntax.strings[id];
        PushAsm(StrLabel(id) + ":");
        PushAsm("  .string " + str);
        assert syntax.strings[..id + 1][..id] == syntax.strings[..id];
        id := id + 1;
      }
      assert syntax.strings[..id] == syntax.strings;
      PushAsm("");
    }

    /** The loop of `assemble` over the functions other than `main`, in the
        table's iteration order (any order), each followed by an empty
        line. Only the scopes of the visited functions change. */
    method AsmOthers() returns (out: Outcome, ghost order: seq<string>)
      requires forall name :: name in syntax.functions ==> syntax.functions[name].id in syntax.variables.children
      requires forall n1, n2 :: n1 in syntax.functions && n2 in syntax.functions && n1 != n2 ==>
                 syntax.functions[n1].id != syntax.functions[n2].id
      modifies this`asm, syntax`variables
      ensures OthersLaidOut(syntax.functions, old(syntax.variables.children), syntax.variables.children, order)
      ensures out.Ok? ==> forall name :: name in syntax.functions ==> name in order
      ensures var e := OthersAsm(order, syntax.functions, syntax.variables.children, syntax.externs);
              asm == old(asm) + e.lines && out == e.outcome
      ensures syntax.variables == old(syntax.variables).(children := syntax.variables.children)
    {
      var names := syntax.functions.Keys;
      order := [];
      out := Ok;
      while names != {}
        invariant OthersLaidOut(syntax.functions, old(syntax.variables.children), syntax.variables.children, order)
        invariant Pending(names, order, syntax.functions.Keys)
        invariant out == Ok
        invariant OthersAsm(order, syntax.functions, syntax.variables.children, syntax.externs).outcome.Ok?
        invariant asm == old(asm) + OthersAsm(order, syntax.functions, syntax.variables.children, syntax.externs).lines
        invariant syntax.variables == old(syntax.variables).(children := syntax.variables.children)
        decreases |names|
      {
        var name :| name in names;
        PendingStep(names, order, syntax.functions.Keys, name);
        out := AsmOther(name, order, old(syntax.variables.children), old(asm));
        order := order + [name];
        names := names - {name};
        if !out.Ok? {
          return;
        }
      }
    }

    /** One pass of the loop over the other functions: the function called
        `name`, not yet listed, followed by an empty line when it succeeds. */
    method AsmOther(name: string, ghost order: seq<string>, ghost registry0: map<nat, VarTree>,
                    ghost asm0: seq<string>) returns (out: Outcome)
      requires name in syntax.functions && syntax.functions[name].id in syntax.variables.children
      requires forall n1, n2 :: n1 in syntax.functions && n2 in syntax.functions && n1 != n2 ==>
                 syntax.functions[n1].id != syntax.functions[n2].id
      requires forall i :: 0 <= i < |order| ==> order[i] != name
      requires OthersLaidOut(syntax.functions, registry0, syntax.variables.children, order)
      requires OthersAsm(order, syntax.functions, syntax.variables.children, syntax.externs).outcome.Ok?
      requires asm == asm0 + OthersAsm(order, syntax.functions, syntax.variables.children, syntax.externs).lines
      modifies this`asm, syntax`variables
      ensures OthersLaidOut(syntax.functions, registry0, syntax.variables.children, order + [name])
      ensures var e := OthersAsm(order + [name], syntax.functions, syntax.variables.children, syntax.externs);
              asm == asm0 + e.lines && out == e.outcome
      ensures syntax.variables == old(syntax.variables).(children := syntax.variables.children)
    {
      var f := syntax.functions[name];
      ghost var registry := syntax.variables.children;
      ghost var prev := OthersAsm(order, syntax.functions, registry, syntax.externs);
      out := AsmFunction(f);
      OthersStep(syntax.functions, registry0, registry, syntax.variables.children, order, name, syntax.externs);
      ghost var e := FunctionAsm(f, syntax.variables.children[f.id], syntax.externs);
      AppendTwice(asm0, prev.lines, e.lines);
      if !out.Ok? {
        assert prev.lines + e.lines + [] == prev.lines + e.lines;
        return;
      }
      PushAsm("");
      AppendTwice(asm0, prev.lines + e.lines, [""]);
    }

    /** `assemble`: fails fatally without `main`; otherwise emits the data
        section, `main` under `.globl`, then every other function, and
        returns the buffer joined by newlines. `main` is taken out of the
        function table, so it is emitted once. */
    method Assemble() returns (r: Result<string>, ghost order: seq<string>)
      requires syntax.Valid()
      modifies this`asm, syntax`functions, syntax`variables
      ensures "main" !in old(syntax.functions) ==>
                && r == Failure(Fatal("No main function")) && asm == old(asm)
                && syntax.functions == old(syntax.functions) && syntax.variables == old(syntax.variables)
      ensures "main" in old(syntax.functions) ==>
                var main := old(syntax.functions)["main"];
                && syntax.functions == old(syntax.functions) - {"main"}
                && syntax.variables == old(syntax.variables).(children := syntax.variables.children)
                && main.id in syntax.variables.children
                && FrameLaidOut(old(syntax.variables.children)[main.id], syntax.variables.children[main.id])
                && OthersLaidOut(syntax.functions,
                                 old(syntax.variables.children)[main.id := syntax.variables.children[main.id]],
                                 syntax.variables.children, order)
                && var p := ProgramAsm(syntax.strings, main, order, syntax.functions, syntax.variables.children, syntax.externs);
                && asm == old(asm) + p.lines
                && (p.outcome.Ok? ==> r == Success(Join(asm, "\n")) &&
                                      forall name :: name in syntax.functions ==> name in order)
                && (!p.outcome.Ok? ==> r == Failure(p.outcome))
    {
      order := [];
      if "main" !in syntax.functions {
        return Failure(Fatal("No main function")), order;
      }
      AsmHeader();
      var main := syntax.functions["main"];
      syntax.functions := syntax.functions - {"main"};
      PushAsm(".text\n.globl main");
      ghost var head := Header(syntax.strings) + [".text\n.globl main"];
      AppendTwice(old(asm), Header(syntax.strings), [".text\n.globl main"]);
      var out := AsmFunction(main);
      ghost var m := FunctionAsm(main, syntax.variables.children[main.id], syntax.externs);
      AppendTwice(old(asm), head, m.lines);
      if !out.Ok? {
        return Failure(out), order;
      }
      ghost var registry := syntax.variables.children;
      PushAsm("");
      AppendTwice(old(asm), head + m.lines, [""]);
      out, order := AsmOthers();
      ghost var rest := OthersAsm(order, syntax.functions, syntax.variables.children, syntax.externs);
      AppendTwice(old(asm), head + m.lines + [""], rest.lines);
      assert syntax.variables.children[main.id] == registry[main.id];
      if !out.Ok? {
        return Failure(out), order;
      }
      return Success(Join(asm, "\n")), order;
    }
  }
}
