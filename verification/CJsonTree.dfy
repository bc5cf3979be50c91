/** The child lists of `gbcom_common/json/cjson.c` as they lie in memory: doubly linked,
    null at both ends, each node in one list only; and the deep copy of a tree. */
module CJsonTree {
  import opened CText

  const IS_REFERENCE := 256

  datatype Option<+T> = None | Some(value: T)

  /** The contents of a node and of everything below it. */
  datatype Tree = Tree(kind: nat, number: real, text: Option<Text>, name: Option<Text>, kids: seq<Tree>)

  function ClearReference(kind: nat): nat {
    if kind / IS_REFERENCE % 2 == 1 then kind - IS_REFERENCE else kind
  }

  /** The same tree without reference flags. */
  function Dereferenced(t: Tree): Tree {
    Tree(ClearReference(t.kind), t.number, t.text, t.name,
         seq(|t.kids|, i requires 0 <= i < |t.kids| => Dereferenced(t.kids[i])))
  }

  class Item {
    var next: Item?
    var prev: Item?
    var child: Item?
    var kind: nat
    var number: real
    var text: Option<Text>
    var name: Option<Text>
    ghost var kids: seq<Item>
    ghost var Repr: set<Item>

    constructor ()
      ensures next == null && prev == null && child == null && kind == 0 && number == 0.0
      ensures text == None && name == None && kids == [] && Repr == {this} && Owns()
    {
      next, prev, child, kind, number, text, name := null, null, null, 0, 0.0, None, None;
      kids, Repr := [], {this};
    }

    /** `child` leads to a doubly linked list of exactly `kids`. */
    ghost predicate Listed()
      reads this`child, this`kids, kids
    {
      && child == (if kids == [] then null else kids[0])
      && (kids != [] ==> kids[0].prev == null && kids[|kids| - 1].next == null)
      && (forall i, j :: 0 <= i && j == i + 1 < |kids| ==> kids[i].next == kids[j] && kids[j].prev == kids[i])
      && (forall i, j :: 0 <= i < j < |kids| ==> kids[i] != kids[j])
    }

    /** The node, its list and the footprints of its children, which do not meet. */
    ghost predicate Shape()
      reads this`child, this`kids, this`Repr, kids
    {
      && this in Repr
      && (forall i :: 0 <= i < |kids| ==> kids[i] in Repr - {this} && kids[i].Repr <= Repr - {this})
      && Listed()
      && Disjoint()
    }

    /** A tree in memory: every list below is well formed and no node is reached twice. */
    ghost predicate Owns()
      reads this`child, this`kids, this`Repr, Repr - {this}
      decreases Repr
    {
      && this in Repr && (forall i :: 0 <= i < |kids| ==> kids[i] in Repr - {this})
      && (forall k <- kids :: k in Repr - {this})
      && Shape()
      && (forall i :: 0 <= i < |kids| ==> kids[i].Owns())
    }

    lemma ShapeOf()
      requires Owns()
      ensures Shape() && Listed() && this in Repr
      ensures forall i :: 0 <= i < |kids| ==>
                && kids[i].Owns() && kids[i] in kids[i].Repr
                && kids[i] in Repr - {this} && kids[i].Repr <= Repr - {this}
      ensures forall i, j :: 0 <= i < |kids| && 0 <= j < |kids| && i != j ==> kids[i].Repr !! kids[j].Repr
    {
    }

    lemma ListedOf()
      requires Owns()
      ensures Listed()
    {
    }

    /** What is not in a tree, or is only its root's place in a list, cannot disturb it. */
    twostate lemma Undisturbed()
      requires old(Owns()) && Same()
      ensures Owns() && Values(0) == old(Values(0))
      ensures unchanged(this`kind, this`number, this`text, this`name) ==> Value() == old(Value())
      decreases Repr, |kids| + 1
    {
      ValuesUndisturbed(0);
    }

    twostate predicate Same()
      reads this, Repr
    {
      unchanged(this`child, this`kids, this`Repr) && forall o :: o in Repr - {this} ==> unchanged(o)
    }

    twostate lemma ValuesUndisturbed(i: nat)
      requires old(Owns()) && Owns() && Same() && i <= |kids|
      ensures Values(i) == old(Values(i))
      decreases Repr, |kids| - i
    {
      if i < |kids| {
        kids[i].Undisturbed();
        ValuesUndisturbed(i + 1);
      }
    }

    ghost predicate Disjoint()
      reads this`kids, kids
    {
      forall i, j :: 0 <= i < |kids| && 0 <= j < |kids| && i != j ==> kids[i].Repr !! kids[j].Repr
    }

    ghost function Value(): Tree
      requires Owns()
      reads this`child, this`kids, this`Repr, this`kind, this`number, this`text, this`name, Repr - {this}
      decreases Repr, |kids| + 1
    {
      Tree(kind, number, text, name, Values(0))
    }

    /** The contents of the children from the i-th on. */
    ghost function Values(i: nat): (ts: seq<Tree>)
      requires Owns() && i <= |kids|
      reads this`child, this`kids, this`Repr, Repr - {this}
      decreases Repr, |kids| - i
    {
      if i == |kids| then [] else [kids[i].Value()] + Values(i + 1)
    }

    lemma {:induction false} ValuesAre(i: nat)
      requires Owns() && i <= |kids|
      ensures |Values(i)| == |kids| - i
      ensures forall j :: 0 <= j < |kids| - i ==> Values(i)[j] == kids[i + j].Value()
      decreases |kids| - i
    {
      if i < |kids| {
        ValuesAre(i + 1);
      }
    }

    /** `suffix_object`, or the first child: the links only. */
    method Link(last: Item?, c: Item)
      requires Listed() && c !in kids && c.next == null && c.prev == null
      requires last == if kids == [] then null else kids[|kids| - 1]
      modifies this`child, this`kids, (set k | k in kids)`next, c`prev
      ensures Listed() && kids == old(kids) + [c]
    {
      if last == null {
        child := c;
      } else {
        last.next := c;
        c.prev := last;
      }
      kids := kids + [c];
    }

    /** Hangs the tree `c` behind the last child. */
    method Append(last: Item?, c: Item)
      requires Owns() && c.Owns() && Repr !! c.Repr && c.next == null && c.prev == null
      requires last == if kids == [] then null else kids[|kids| - 1]
      modifies this`child, this`kids, this`Repr, (set k | k in kids)`next, c`prev
      ensures Owns() && kids == old(kids) + [c] && Repr == old(Repr) + old(c.Repr)
      ensures c.Owns() && c.Value() == old(c.Value()) && c.Repr == old(c.Repr)
      ensures forall k :: k in old(kids) ==> k.Owns() && k.Value() == old(k.Value())
    {
      hide Owns, Listed, Shape, Disjoint;
      ghost var was := kids;
      ghost var footprint := Repr + c.Repr;
      NotAKid(c);
      ShapeOf();
      Link(last, c);
      Repr := footprint;
      OwnsWith(was, c);
    }

    twostate lemma OwnsWith(new was: seq<Item>, c: Item)
      requires old(Owns()) && old(c.Owns()) && old(Repr) !! old(c.Repr) && was == old(kids)
      requires Listed() && kids == was + [c] && Repr == old(Repr) + old(c.Repr)
      requires KidsKept(was, old(Repr)) && c.Kept() && forall o :: o in old(c.Repr) - {c} ==> unchanged(o)
      ensures Owns() && c.Owns() && c.Value() == old(c.Value())
      ensures forall k :: k in was ==> k.Owns() && k.Value() == old(k.Value())
    {
      hide Owns, Listed, Shape, Disjoint;
      KidsUndisturbed(was);
      c.Undisturbed();
      WithShape(was, c);
    }

    twostate lemma WithShape(new was: seq<Item>, c: Item)
      requires old(Owns()) && old(Repr) !! old(c.Repr) && was == old(kids)
      requires Listed() && kids == was + [c] && Repr == old(Repr) + c.Repr
      requires forall i :: 0 <= i < |was| ==> was[i].Repr == old(was[i].Repr) && was[i].Owns()
      requires c.Repr == old(c.Repr) && c.Owns()
      ensures Owns()
    {
      hide Listed;
      c.ShapeOf();
      forall i | 0 <= i < |kids|
        ensures kids[i] in Repr - {this} && kids[i].Repr <= Repr - {this} && kids[i].Owns()
      {
        assert i < |was| ==> kids[i] == was[i];
      }
      assert Disjoint();
    }

    /** `cJSON_AddItemToArray`: walks to the last child and hangs `c` behind it. */
    method Add(c: Item)
      requires Owns() && c.Owns() && Repr !! c.Repr && c.next == null && c.prev == null
      modifies this`child, this`kids, this`Repr, (set k | k in kids)`next, c`prev
      ensures Owns() && kids == old(kids) + [c] && Repr == old(Repr) + c.Repr
      ensures c.Owns() && c.Value() == old(c.Value()) && c.Repr == old(c.Repr)
      ensures forall k :: k in old(kids) ==> k.Owns() && k.Value() == old(k.Value())
    {
      hide Value;
      var last := child;
      if last != null {
        ghost var i := 0;
        while last.next != null
          invariant 0 <= i < |kids| && last == kids[i] && Listed()
          invariant last.next == if i + 1 < |kids| then kids[i + 1] else null
          decreases |kids| - i
        {
          last := last.next;
          i := i + 1;
        }
      }
      Append(last, c);
    }
  
    /** Walks `which` links; a negative `which` stops at the first child. */
    method Find(which: int) returns (c: Item?)
      requires Listed()
      ensures var k := if which < 0 then 0 else which;
              c == if k < |kids| then kids[k] else null
    {
      c := child;
      var left := which;
      ghost var i := 0;
      while c != null && left > 0
        invariant 0 <= i <= |kids| && c == (if i < |kids| then kids[i] else null)
        invariant left == which - i && (which < 0 ==> i == 0)
        invariant i <= (if which < 0 then 0 else which)
        decreases |kids| - i
      {
        assert i + 1 < |kids| ==> kids[i].next == kids[i + 1];
        c, left := c.next, left - 1;
        i := i + 1;
      }
    }

    /** The links around `c` closed over it. */
    method Unlink(c: Item, ghost k: nat)
      requires Listed() && k < |kids| && c == kids[k]
      modifies this`child, this`kids, (set x | x in kids)`next, (set x | x in kids)`prev
      ensures Listed() && kids == old(kids)[..k] + old(kids)[k + 1..]
      ensures c.next == null && c.prev == null
    {
      ghost var was := kids;
      assert k > 0 ==> kids[k - 1].next == c && c.prev == kids[k - 1];
      assert k + 1 < |kids| ==> c.next == kids[k + 1];
      if c.prev != null { c.prev.next := c.next; }
      if c.next != null { c.next.prev := c.prev; }
      if c == child { child := c.next; }
      c.prev, c.next := null, null;
      kids := kids[..k] + kids[k + 1..];
      Spared(was, k);
    }

    /** The list without its k-th node, whose neighbours were joined. */
    twostate lemma Spared(new was: seq<Item>, new k: nat)
      requires k < |was| && old(Listed()) && was == old(kids) && kids == was[..k] + was[k + 1..]
      requires child == if k == 0 then (if |was| > 1 then was[1] else null) else was[0]
      requires forall i :: 0 <= i < |was| && i != k ==>
                 && was[i].next == (if i + 1 == k then old(was[k].next) else old(was[i].next))
                 && was[i].prev == (if i == k + 1 then old(was[k].prev) else old(was[i].prev))
      ensures Listed()
    {
      forall i, j | 0 <= i && j == i + 1 < |kids|
        ensures kids[i].next == kids[j] && kids[j].prev == kids[i]
      {
        var a := if i < k then i else i + 1;
        var b := if j < k then j else j + 1;
        assert kids[i] == was[a] && kids[j] == was[b];
        if b == a + 2 {
          assert old(was[k].next) == was[b] && old(was[k].prev) == was[a];
        } else {
          assert old(was[a].next) == was[b] && old(was[b].prev) == was[a];
        }
      }
    }

    /** `cJSON_DetachItemFromArray`. */
    method Detach(which: int) returns (c: Item?)
      requires Owns()
      modifies this`child, this`kids, this`Repr, (set x | x in kids)`next, (set x | x in kids)`prev
      ensures Owns()
      ensures var k := if which < 0 then 0 else which;
              if k >= |old(kids)| then c == null && kids == old(kids) && Repr == old(Repr)
              else && c == old(kids)[k] && kids == old(kids)[..k] + old(kids)[k + 1..]
                   && c.next == null && c.prev == null
                   && c.Repr == old(c.Repr) && Repr == old(Repr) - c.Repr
      ensures forall x :: x in old(kids) ==> x.Owns() && x.Value() == old(x.Value())
    {
      ListedOf();
      c := Find(which);
      if c != null { DetachAt(c, if which < 0 then 0 else which); }
    }

    method DetachAt(c: Item, ghost k: nat)
      requires Owns() && k < |kids| && c == kids[k]
      modifies this`child, this`kids, this`Repr, (set x | x in kids)`next, (set x | x in kids)`prev
      ensures Owns() && kids == old(kids)[..k] + old(kids)[k + 1..] && Repr == old(Repr) - old(c.Repr)
      ensures c.next == null && c.prev == null && c.Repr == old(c.Repr)
      ensures forall x :: x in old(kids) ==> x.Owns() && x.Value() == old(x.Value())
    {
      hide Owns, Listed, Shape, Disjoint;
      ghost var was := kids;
      ghost var footprint := Repr - c.Repr;
      ShapeOf();
      Unlink(c, k);
      Repr := footprint;
      OwnsWithout(was, k);
    }

    /** All but the place in a list. */
    twostate predicate Kept()
      reads this
    {
      unchanged(this`child, this`kids, this`Repr, this`kind, this`number, this`text, this`name)
    }

    twostate predicate KidsKept(was: seq<Item>, footprint: set<Item>)
      reads footprint, was
    {
      && (forall o :: o in footprint - {this} && o !in was ==> unchanged(o))
      && (forall o :: o in was ==> o.Kept())
    }

    /** New links between children leave the children's own trees alone. */
    twostate lemma KidsUndisturbed(was: seq<Item>)
      requires old(Owns()) && was == old(kids) && KidsKept(was, old(Repr))
      ensures forall i :: 0 <= i < |was| ==>
                was[i].Owns() && was[i].Repr == old(was[i].Repr) && was[i].Value() == old(was[i].Value())
    {
      forall i | 0 <= i < |was| ensures was[i].Owns() && was[i].Value() == old(was[i].Value()) {
        forall j | 0 <= j < |was| ensures was[j] !in was[i].Repr - {was[i]} {
          assert j != i ==> old(was[i].Repr) !! old(was[j].Repr);
        }
        was[i].Undisturbed();
      }
    }

    twostate lemma OwnsWithout(new was: seq<Item>, new k: nat)
      requires old(Owns()) && was == old(kids) && k < |was|
      requires Listed() && kids == was[..k] + was[k + 1..] && Repr == old(Repr) - old(was[k].Repr)
      requires KidsKept(was, old(Repr))
      ensures Owns()
      ensures forall k :: k in was ==> k.Owns() && k.Value() == old(k.Value())
    {
      hide Owns, Listed, Shape, Disjoint;
      KidsUndisturbed(was);
      WithoutShape(was, k);
    }

    twostate lemma WithoutShape(new was: seq<Item>, new k: nat)
      requires old(Owns()) && was == old(kids) && k < |was|
      requires Listed() && kids == was[..k] + was[k + 1..] && Repr == old(Repr) - old(was[k].Repr)
      requires forall i :: 0 <= i < |was| ==> was[i].Repr == old(was[i].Repr) && was[i].Owns()
      ensures Owns()
    {
      hide Listed;
      assert forall i :: 0 <= i < |kids| ==> kids[i] == was[if i < k then i else i + 1];
    }

    /** The links of `c` handed to `n`. */
    method Relink(c: Item, n: Item, ghost k: nat)
      requires Listed() && k < |kids| && c == kids[k] && n !in kids
      modifies this`child, this`kids, n`next, n`prev, (set x | x in kids)`next, (set x | x in kids)`prev
      ensures Listed() && kids == old(kids)[k := n]
      ensures c.next == null && c.prev == null
    {
      ghost var was := kids;
      assert k > 0 ==> kids[k - 1].next == c && c.prev == kids[k - 1];
      assert k + 1 < |kids| ==> c.next == kids[k + 1];
      n.next, n.prev := c.next, c.prev;
      if n.next != null { n.next.prev := n; }
      if c == child { child := n; } else { n.prev.next := n; }
      c.next, c.prev := null, null;
      kids := kids[k := n];
      Exchanged(was, n, k);
    }

    /** The list with its k-th node exchanged. */
    twostate lemma Exchanged(new was: seq<Item>, n: Item, new k: nat)
      requires k < |was| && old(Listed()) && was == old(kids) && n !in was && kids == was[k := n]
      requires child == if k == 0 then n else was[0]
      requires n.next == old(was[k].next) && n.prev == old(was[k].prev)
      requires forall i :: 0 <= i < |was| && i != k ==>
                 && was[i].next == (if i + 1 == k then n else old(was[i].next))
                 && was[i].prev == (if i == k + 1 then n else old(was[i].prev))
      ensures Listed()
    {
      forall i, j | 0 <= i && j == i + 1 < |kids|
        ensures kids[i].next == kids[j] && kids[j].prev == kids[i]
      {
        assert old(was[i].next) == was[j] && old(was[j].prev) == was[i];
      }
    }

    /** `cJSON_ReplaceItemInArray`; the replaced node is left detached, as `cJSON_Delete` gets it. */
    method Replace(which: int, n: Item)
      requires Owns() && n.Owns() && Repr !! n.Repr
      modifies this`child, this`kids, this`Repr, n`next, n`prev
      modifies (set x | x in kids)`next, (set x | x in kids)`prev
      ensures Owns()
      ensures var k := if which < 0 then 0 else which;
              if k >= |old(kids)| then kids == old(kids) && Repr == old(Repr)
              else && kids == old(kids)[k := n]
                   && Repr == old(Repr) - old(kids[k].Repr) + n.Repr && n.Repr == old(n.Repr)
                   && old(kids)[k].next == null && old(kids)[k].prev == null
      ensures n.Owns() && n.Value() == old(n.Value())
      ensures forall x :: x in old(kids) ==> x.Owns() && x.Value() == old(x.Value())
    {
      hide Owns, Listed, Shape, Disjoint, Value;
      ShapeOf();
      var c := Find(which);
      if c != null { ReplaceAt(c, if which < 0 then 0 else which, n); }
    }

    method ReplaceAt(c: Item, ghost k: nat, n: Item)
      requires Owns() && n.Owns() && Repr !! n.Repr && k < |kids| && c == kids[k]
      modifies this`child, this`kids, this`Repr, n`next, n`prev
      modifies (set x | x in kids)`next, (set x | x in kids)`prev
      ensures Owns() && kids == old(kids)[k := n] && c.next == null && c.prev == null
      ensures Repr == old(Repr) - old(c.Repr) + old(n.Repr) && n.Repr == old(n.Repr)
      ensures n.Owns() && n.Value() == old(n.Value())
      ensures forall x :: x in old(kids) ==> x.Owns() && x.Value() == old(x.Value())
    {
      hide Owns, Listed, Shape, Disjoint;
      ghost var was := kids;
      ghost var footprint := Repr - c.Repr + n.Repr;
      ShapeOf();
      NotAKid(n);
      Relink(c, n, k);
      Repr := footprint;
      OwnsExchanged(was, n, k);
    }

    lemma NotAKid(n: Item)
      requires Owns() && n.Owns() && Repr !! n.Repr
      ensures n !in kids && n !in Repr && n in n.Repr && this !in n.Repr
    {
      n.ShapeOf();
    }

    twostate lemma OwnsExchanged(new was: seq<Item>, n: Item, new k: nat)
      requires old(Owns()) && old(n.Owns()) && old(Repr) !! old(n.Repr) && was == old(kids) && k < |was|
      requires Listed() && kids == was[k := n] && Repr == old(Repr) - old(was[k].Repr) + old(n.Repr)
      requires KidsKept(was, old(Repr)) && n.Kept() && forall o :: o in old(n.Repr) - {n} ==> unchanged(o)
      ensures Owns() && n.Owns() && n.Value() == old(n.Value())
      ensures forall k :: k in was ==> k.Owns() && k.Value() == old(k.Value())
    {
      hide Owns, Listed, Shape, Disjoint;
      KidsUndisturbed(was);
      n.Undisturbed();
      ExchangedShape(was, n, k);
    }

    twostate lemma ExchangedShape(new was: seq<Item>, n: Item, new k: nat)
      requires old(Owns()) && old(Repr) !! old(n.Repr) && was == old(kids) && k < |was|
      requires Listed() && kids == was[k := n] && Repr == old(Repr) - old(was[k].Repr) + n.Repr
      requires forall i :: 0 <= i < |was| ==> was[i].Repr == old(was[i].Repr) && was[i].Owns()
      requires n.Repr == old(n.Repr) && n.Owns()
      ensures Owns()
    {
      hide Listed;
      n.ShapeOf();
      assert this in Repr;
      forall i | 0 <= i < |kids|
        ensures kids[i] in Repr - {this} && kids[i].Repr <= Repr - {this}
      {
        if i != k { assert old(was[i].Repr) !! old(was[k].Repr); }
      }
      assert Disjoint();
    }
  }

  // ---------- the deep copy ----------

  /** The children of `copy` are copies of the trees `ts`, in their order. */
  ghost predicate Copies(copy: Item, ts: seq<Tree>)
    reads copy, copy.Repr
  {
    && copy.Owns() && |copy.kids| == |ts|
    && forall j :: 0 <= j < |ts| ==> copy.kids[j].Owns() && copy.kids[j].Value() == Dereferenced(ts[j])
  }

  /** `cJSON_Duplicate`: a tree of new nodes only, with the contents of `item`. */
  method Duplicate(item: Item, recurse: bool) returns (copy: Item)
    requires item.Owns()
    ensures fresh(copy.Repr) && copy.Owns() && copy.next == null && copy.prev == null
    ensures copy.Value() == if recurse then Dereferenced(item.Value())
                            else Dereferenced(item.Value().(kids := []))
    decreases item.Repr, 2
  {
    hide Item.Owns, Item.Values, Item.Value, Dereferenced, ClearReference;
    copy := new Item();
    copy.kind, copy.number, copy.text, copy.name := ClearReference(item.kind), item.number, item.text, item.name;
    ghost var ts := if recurse then item.Values(0) else [];
    if recurse { DuplicateKids(item, copy, ts); }
    Untouched(item);
    ValueParts(item);
    CopiedValue(copy, item.kind, item.number, item.text, item.name, ts);
  }

  lemma ValueParts(item: Item)
    requires item.Owns()
    ensures item.Value() == Tree(item.kind, item.number, item.text, item.name, item.Values(0))
  {
  }

  lemma CopiedValue(copy: Item, kind: nat, number: real, text: Option<Text>, name: Option<Text>, ts: seq<Tree>)
    requires Copies(copy, ts)
    requires copy.kind == ClearReference(kind) && copy.number == number
    requires copy.text == text && copy.name == name
    ensures copy.Value() == Dereferenced(Tree(kind, number, text, name, ts))
  {
    copy.ValuesAre(0);
    assert copy.Values(0) == seq(|ts|, i requires 0 <= i < |ts| => Dereferenced(ts[i]));
  }

  /** The walk over the children of `item`. */
  method DuplicateKids(item: Item, copy: Item, ghost ts: seq<Tree>)
    requires item.Owns() && ts == item.Values(0)
    requires copy.Owns() && copy.kids == [] && item.Repr !! copy.Repr
    modifies copy`child, copy`kids, copy`Repr
    ensures Copies(copy, ts) && forall o :: o in copy.Repr ==> o in old(copy.Repr) || fresh(o)
    decreases item.Repr, 1
  {
    hide Round;
    var cptr, nptr: Item? := item.child, null;
    ghost var i := 0;
    FirstRound(item, copy, ts);
    while cptr != null
      invariant i <= |ts| && Round(item, copy, ts, i, cptr, nptr) && (i < |ts| <==> cptr != null)
      invariant forall o :: o in copy.Repr ==> o in old(copy.Repr) || fresh(o)
      invariant forall k :: k in copy.kids ==> fresh(k)
      decreases |ts| - i
    {
      cptr, nptr := DuplicateRound(item, copy, ts, i, cptr, nptr);
      i := i + 1;
    }
    LastRound(item, copy, ts, nptr);
  }

  /** After `i` rounds: `item` as it was, `i` copies made, both cursors in place. */
  ghost predicate Round(item: Item, copy: Item, ts: seq<Tree>, i: nat, cptr: Item?, nptr: Item?)
    reads item, item.Repr, copy, copy.Repr
  {
    && item.Owns() && item.Values(0) == ts && |item.kids| == |ts| && item.Repr !! copy.Repr
    && i <= |ts| && Copies(copy, ts[..i])
    && cptr == (if i < |ts| then item.kids[i] else null)
    && nptr == (if i == 0 then null else copy.kids[i - 1])
  }

  lemma FirstRound(item: Item, copy: Item, ts: seq<Tree>)
    requires item.Owns() && ts == item.Values(0)
    requires copy.Owns() && copy.kids == [] && item.Repr !! copy.Repr
    ensures Round(item, copy, ts, 0, item.child, null) && (0 < |ts| <==> item.child != null)
  {
    item.ValuesAre(0);
  }

  lemma LastRound(item: Item, copy: Item, ts: seq<Tree>, nptr: Item?)
    requires Round(item, copy, ts, |ts|, null, nptr)
    ensures Copies(copy, ts)
  {
    assert ts[..|ts|] == ts;
  }

  /** One round: the copy of `cptr` behind those made before. */
  method DuplicateRound(item: Item, copy: Item, ghost ts: seq<Tree>, ghost i: nat, cptr: Item, nptr: Item?)
      returns (next: Item?, newchild: Item)
    requires i < |ts| && Round(item, copy, ts, i, cptr, nptr)
    modifies copy`child, copy`kids, copy`Repr, (set k | k in copy.kids)`next
    ensures Round(item, copy, ts, i + 1, next, newchild) && (i + 1 < |ts| <==> next != null)
    ensures forall o :: o in copy.Repr ==> o in old(copy.Repr) || fresh(o)
    ensures forall k :: k in copy.kids ==> k in old(copy.kids) || fresh(k)
    decreases item.Repr, 0
  {
    KidAt(item, i);
    CopyRoot(copy, ts[..i]);
    hide Item.Owns, Item.Values, Item.Value, Copies, Item.Listed, Item.Shape, Item.Disjoint;
    newchild := DuplicateNext(cptr, copy, nptr, ts[..i], ts[i]);
    Untouched(item);
    next := cptr.next;
    NextRound(item, copy, ts, i, next, newchild);
  }

  lemma NextRound(item: Item, copy: Item, ts: seq<Tree>, i: nat, next: Item?, newchild: Item)
    requires i < |ts| && item.Owns() && item.Values(0) == ts && item.Repr !! copy.Repr
    requires Copies(copy, ts[..i] + [ts[i]]) && copy.kids != [] && newchild == copy.kids[|copy.kids| - 1]
    requires |item.kids| == |ts| && next == item.kids[i].next
    ensures Round(item, copy, ts, i + 1, next, newchild) && (i + 1 < |ts| <==> next != null)
  {
    hide Item.Owns, Item.Values, Item.Value, Copies, Item.Listed, Item.Shape, Item.Disjoint;
    KidAt(item, i);
    CopyRoot(copy, ts[..i] + [ts[i]]);
    assert ts[..i + 1] == ts[..i] + [ts[i]];
  }

  lemma CopyRoot(copy: Item, ts: seq<Tree>)
    requires Copies(copy, ts)
    ensures copy.Owns() && copy in copy.Repr && |copy.kids| == |ts| && forall k :: k in copy.kids ==> k in copy.Repr
  {
  }

  /** `item` as it was on entry, since only new nodes have been written. */
  twostate lemma Untouched(item: Item)
    requires old(item.Owns()) && unchanged(item) && forall o :: o in old(item.Repr) ==> unchanged(o)
    ensures item.Owns() && item.Values(0) == old(item.Values(0)) && item.Value() == old(item.Value())
  {
    item.Undisturbed();
  }

  lemma KidAt(item: Item, i: nat)
    requires item.Owns() && i < |item.kids|
    ensures |item.Values(0)| == |item.kids|
    ensures item.kids[i].Owns() && item.kids[i].Value() == item.Values(0)[i]
    ensures item.kids[i].Repr < item.Repr
    ensures item.kids[i].next == if i + 1 < |item.kids| then item.kids[i + 1] else null
  {
    item.ValuesAre(0);
    item.ShapeOf();
    assert i + 1 < |item.kids| ==> item.kids[i].next == item.kids[i + 1];
  }

  method DuplicateNext(cptr: Item, copy: Item, nptr: Item?, ghost ts: seq<Tree>, ghost t: Tree)
      returns (newchild: Item)
    requires cptr.Owns() && cptr.Value() == t && Copies(copy, ts)
    requires nptr == if copy.kids == [] then null else copy.kids[|copy.kids| - 1]
    modifies copy`child, copy`kids, copy`Repr, (set k | k in copy.kids)`next
    ensures Copies(copy, ts + [t]) && (forall o :: o in copy.Repr ==> o in old(copy.Repr) || fresh(o)) && fresh(newchild)
    ensures copy.kids == old(copy.kids) + [newchild] && copy in copy.Repr
    decreases cptr.Repr, 3
  {
    hide Item.Owns, Item.Value, Dereferenced, Item.Shape, Item.Listed, Item.Disjoint, Copies;
    CopyRoot(copy, ts);
    newchild := Duplicate(cptr, true);
    newchild.ShapeOf();
    CopyRoot(copy, ts);
    copy.ShapeOf();
    label Hung:
    copy.Append(nptr, newchild);
    OneMore@Hung(copy, ts, newchild, t);
  }

  twostate lemma OneMore(copy: Item, new ts: seq<Tree>, new c: Item, new t: Tree)
    requires old(Copies(copy, ts)) && copy.kids == old(copy.kids) + [c] && copy.Owns()
    requires c.Owns() && c.Value() == Dereferenced(t)
    requires forall k :: k in old(copy.kids) ==> k.Owns() && k.Value() == old(k.Value())
    ensures Copies(copy, ts + [t])
  {
    hide Item.Owns, Item.Value, Dereferenced;
    forall j | 0 <= j < |ts + [t]|
      ensures copy.kids[j].Owns() && copy.kids[j].Value() == Dereferenced((ts + [t])[j])
    {
      assert j < |ts| ==> copy.kids[j] == old(copy.kids)[j];
    }
  }
}
