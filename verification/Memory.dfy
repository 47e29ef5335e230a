/** The C heap as far as the daemons use it: malloc'ed strings and cJSON nodes at addresses that are never
    used twice, string literals that are not on the heap, and the cJSON calls on them. */
module Memory {

  type Addr = nat

  /** `Static` is a pointer to a string literal. */
  datatype Ptr = Null | Static(literal: string) | Heap(at: Addr)

  datatype Option<+T> = None | Some(value: T)

  datatype Kind = StringKind | NumberKind | ObjectKind | OtherKind

  datatype Block =
    | Text(text: string)
    | Node(next: Ptr, child: Ptr, kind: Kind, value: Ptr, number: real, name: Ptr)

  type Memory = map<Addr, Block>

  // ----- Parsed JSON, without and with addresses -----

  /** A chain of JSON items: the first item, its children and the items after it. An item has a name if it is
      an object member and a value if it is a string. */
  datatype Json = End | Item(kind: Kind, name: Option<string>, value: Option<string>, number: real, child: Json, next: Json)

  datatype Str = NoStr | Str(at: Addr, text: string)

  /** The same chain, with the addresses at which its nodes and strings live. */
  datatype Tree = Nil | Cell(at: Addr, kind: Kind, name: Str, value: Str, number: real, child: Tree, next: Tree)

  function EraseStr(s: Str): Option<string> {
    if s.NoStr? then None else Some(s.text)
  }

  function Erase(t: Tree): Json {
    if t.Nil? then End
    else Item(t.kind, EraseStr(t.name), EraseStr(t.value), t.number, Erase(t.child), Erase(t.next))
  }

  function PtrOf(t: Tree): Ptr {
    if t.Nil? then Null else Heap(t.at)
  }

  function StrPtr(s: Str): Ptr {
    if s.NoStr? then Null else Heap(s.at)
  }

  function StrFoot(s: Str): set<Addr> {
    if s.NoStr? then {} else {s.at}
  }

  /** The addresses of the first node itself. */
  function Own(t: Tree): set<Addr>
    requires t.Cell?
  {
    {t.at} + StrFoot(t.name) + StrFoot(t.value)
  }

  /** Every address of the tree. */
  function Foot(t: Tree): set<Addr> {
    if t.Nil? then {} else Own(t) + Foot(t.child) + Foot(t.next)
  }

  /** No address occurs twice. */
  predicate Separate(t: Tree) {
    t.Nil? ||
    (&& {t.at} !! StrFoot(t.name) !! StrFoot(t.value)
     && Own(t) !! Foot(t.child) !! Foot(t.next)
     && Separate(t.child) && Separate(t.next))
  }

  predicate StrHolds(mem: Memory, s: Str) {
    s.NoStr? || (s.at in mem && mem[s.at] == Text(s.text))
  }

  function NodeOf(t: Tree): Block
    requires t.Cell?
  {
    Node(PtrOf(t.next), PtrOf(t.child), t.kind, StrPtr(t.value), t.number, StrPtr(t.name))
  }

  /** The memory contains the tree, all of it live. */
  predicate Holds(mem: Memory, t: Tree) {
    t.Nil? ||
    (&& t.at in mem && mem[t.at] == NodeOf(t)
     && StrHolds(mem, t.name) && StrHolds(mem, t.value)
     && Holds(mem, t.child) && Holds(mem, t.next))
  }

  lemma {:induction false} HoldsIsLive(mem: Memory, t: Tree)
    requires Holds(mem, t)
    ensures Foot(t) <= mem.Keys
  {
    if t.Cell? {
      HoldsIsLive(mem, t.child);
      HoldsIsLive(mem, t.next);
    }
  }

  /** A tree is untouched by changes outside its footprint. */
  lemma {:induction false} HoldsFrame(mem: Memory, mem': Memory, t: Tree)
    requires Holds(mem, t)
    requires forall a :: a in Foot(t) && a in mem ==> a in mem' && mem'[a] == mem[a]
    ensures Holds(mem', t)
  {
    if t.Cell? {
      HoldsFrame(mem, mem', t.child);
      HoldsFrame(mem, mem', t.next);
    }
  }

  /** A tree whose node and strings are live, on top of subtrees that were. */
  lemma CellHolds(mem: Memory, mem': Memory, t: Tree)
    requires t.Cell? && Holds(mem, t.child) && Holds(mem, t.next)
    requires forall a :: a in mem ==> a in mem' && mem'[a] == mem[a]
    requires t.at in mem' && mem'[t.at] == NodeOf(t) && StrHolds(mem', t.name) && StrHolds(mem', t.value)
    ensures Holds(mem', t)
  {
    HoldsFrame(mem, mem', t.child);
    HoldsFrame(mem, mem', t.next);
  }

  /** The tree after the value of its first node has been taken out of it. */
  function Disown(t: Tree): Tree
    requires t.Cell?
  {
    t.(value := NoStr)
  }

  lemma DisownHolds(mem: Memory, mem': Memory, t: Tree)
    requires t.Cell? && t.value.Str? && Holds(mem, t) && Separate(t)
    requires forall a :: a in Foot(t) && a != t.at && a in mem ==> a in mem' && mem'[a] == mem[a]
    requires t.at in mem' && mem'[t.at] == NodeOf(Disown(t))
    ensures Holds(mem', Disown(t)) && Separate(Disown(t))
    ensures Foot(Disown(t)) == Foot(t) - {t.value.at} && t.value.at in Foot(t)
  {
    HoldsFrame(mem, mem', t.child);
    HoldsFrame(mem, mem', t.next);
  }

  /** The same one level up: the value of the first child is taken. */
  lemma DisownChildHolds(mem: Memory, mem': Memory, t: Tree)
    requires t.Cell? && t.child.Cell? && t.child.value.Str? && Holds(mem, t) && Separate(t)
    requires forall a :: a in Foot(t) && a != t.child.at && a in mem ==> a in mem' && mem'[a] == mem[a]
    requires t.child.at in mem' && mem'[t.child.at] == NodeOf(Disown(t.child))
    ensures var rest := t.(child := Disown(t.child));
            && Holds(mem', rest) && Separate(rest)
            && Foot(rest) == Foot(t) - {t.child.value.at} && t.child.value.at in Foot(t)
  {
    DisownHolds(mem, mem', t.child);
    HoldsFrame(mem, mem', t.next);
  }

  predicate IsText(mem: Memory, p: Ptr) {
    p.Static? || (p.Heap? && p.at in mem && mem[p.at].Text?)
  }

  function TextAt(mem: Memory, p: Ptr): string
    requires IsText(mem, p)
  {
    if p.Static? then p.literal else mem[p.at].text
  }

  predicate IsNode(mem: Memory, p: Ptr) {
    p.Heap? && p.at in mem && mem[p.at].Node?
  }

  // ----- Member lookup -----

  function Lower(c: char): char {
    if 'A' <= c <= 'Z' then (c as int + 32) as char else c
  }

  predicate SameIgnoringCase(a: string, b: string) {
    |a| == |b| && forall k :: 0 <= k < |a| ==> Lower(a[k]) == Lower(b[k])
  }

  predicate IsCalled(name: Option<string>, key: string) {
    name.Some? && SameIgnoringCase(name.value, key)
  }

  /** The first item of the chain with that name, ignoring case. */
  function Lookup(j: Json, key: string): Json {
    if j.End? || IsCalled(j.name, key) then j else Lookup(j.next, key)
  }

  /** The `n`-th item of the chain, `End` behind the last. */
  function Nth(j: Json, n: nat): Json {
    if j.End? || n == 0 then j else Nth(j.next, n - 1)
  }

  /** The first item with that name, ignoring case, is the `k`-th, or there is none and the chain has `k` items. */
  predicate FirstAt(j: Json, key: string, k: nat) {
    && (Nth(j, k).Item? ==> IsCalled(Nth(j, k).name, key))
    && forall i :: 0 <= i < k ==> Nth(j, i).Item? && !IsCalled(Nth(j, i).name, key)
  }

  lemma {:induction false} LookupIsFirst(j: Json, key: string, k: nat)
    requires FirstAt(j, key, k)
    ensures Lookup(j, key) == Nth(j, k)
  {
    if k > 0 {
      assert Nth(j, 0) == j;
      forall i | 0 <= i < k - 1 ensures Nth(j.next, i).Item? && !IsCalled(Nth(j.next, i).name, key) {
        assert Nth(j, i + 1) == Nth(j.next, i);
      }
      LookupIsFirst(j.next, key, k - 1);
    }
  }

  /** Such a `k` exists for every chain and name. */
  lemma {:induction false} SomeFirst(j: Json, key: string) returns (k: nat)
    ensures FirstAt(j, key, k)
  {
    k := 0;
    if j.Item? && !IsCalled(j.name, key) {
      var n := SomeFirst(j.next, key);
      k := n + 1;
      forall i | 0 <= i < k ensures Nth(j, i).Item? && !IsCalled(Nth(j, i).name, key) {
        assert i > 0 ==> Nth(j, i) == Nth(j.next, i - 1);
      }
    }
  }

  /** Ignoring case, only a letter is taken for another character: its other case. */
  lemma CaseRule(a: char, b: char)
    ensures SameIgnoringCase([a], [b]) <==>
            || a == b
            || ('A' <= a <= 'Z' && b as int == a as int + 32)
            || ('A' <= b <= 'Z' && a as int == b as int + 32)
  {
    assert SameIgnoringCase([a], [b]) <==> Lower([a][0]) == Lower([b][0]);
  }

  /** Names are compared character by character over their whole length. */
  lemma SameIgnoringCaseConcat(a: string, b: string, c: char, d: char)
    ensures SameIgnoringCase(a + [c], b + [d]) <==> SameIgnoringCase(a, b) && SameIgnoringCase([c], [d])
    ensures SameIgnoringCase(a, []) <==> a == []
  {
    var x, y := a + [c], b + [d];
    if SameIgnoringCase(x, y) {
      assert Lower(x[|a|]) == Lower(y[|b|]);
      assert forall k :: 0 <= k < |a| ==> a[k] == x[k] && b[k] == y[k];
    }
  }

  function LookupTree(t: Tree, key: string): Tree {
    if t.Nil? || IsCalled(EraseStr(t.name), key) then t else LookupTree(t.next, key)
  }

  lemma {:induction false} LookupErases(mem: Memory, t: Tree, key: string)
    requires Holds(mem, t)
    ensures Holds(mem, LookupTree(t, key))
    ensures Erase(LookupTree(t, key)) == Lookup(Erase(t), key)
  {
    if t.Cell? {
      LookupErases(mem, t.next, key);
    }
  }

  class Storage {
    var mem: Memory
    var next: Addr
    ghost var freed: set<Addr>

    /** Every address handed out so far is either live or freed, and not both. */
    ghost predicate Valid()
      reads this
    {
      && mem.Keys !! freed
      && forall a: Addr :: a in mem || a in freed <==> a < next
    }

    constructor ()
      ensures Valid() && mem == map[] && freed == {}
    {
      mem, next, freed := map[], 0, {};
    }

    method Malloc(b: Block) returns (p: Ptr)
      requires Valid()
      modifies this
      ensures Valid() && p == Heap(old(next)) && next == old(next) + 1
      ensures mem == old(mem)[old(next) := b] && freed == old(freed)
    {
      p := Heap(next);
      mem := mem[next := b];
      next := next + 1;
    }

    /** free(3): the block must be live, so nothing is freed twice and no literal is freed. */
    method Free(p: Ptr)
      requires Valid()
      requires p.Null? || (p.Heap? && p.at in mem)
      modifies this
      ensures Valid() && next == old(next)
      ensures mem == old(mem) - (if p.Heap? then {p.at} else {})
      ensures freed == old(freed) + (if p.Heap? then {p.at} else {})
    {
      if p.Heap? {
        mem := mem - {p.at};
        freed := freed + {p.at};
      }
    }

    /** Reading a string: it must be live. */
    method ReadText(p: Ptr) returns (s: string)
      requires IsText(mem, p)
      ensures s == TextAt(mem, p)
    {
      s := if p.Static? then p.literal else mem[p.at].text;
    }

    /** Reading a node: it must be live. */
    method ReadNode(p: Ptr) returns (b: Block)
      requires IsNode(mem, p)
      ensures b.Node? && b == mem[p.at]
    {
      b := mem[p.at];
    }

    /** Writes NULL to the `valuestring` field of a live node. */
    method ClearValue(p: Ptr)
      requires Valid() && IsNode(mem, p)
      modifies this`mem
      ensures Valid() && mem == old(mem)[p.at := old(mem)[p.at].(value := Null)]
    {
      mem := mem[p.at := mem[p.at].(value := Null)];
    }

    method Duplicate(s: Option<string>) returns (p: Ptr, ghost str: Str)
      requires Valid()
      modifies this
      ensures Valid() && freed == old(freed) && old(next) <= next
      ensures p == StrPtr(str) && EraseStr(str) == s && StrHolds(mem, str)
      ensures mem.Keys == old(mem.Keys) + StrFoot(str)
      ensures forall a :: a in StrFoot(str) ==> old(next) <= a < next
      ensures forall a :: a in old(mem) ==> mem[a] == old(mem)[a]
    {
      if s.None? {
        p, str := Null, NoStr;
      } else {
        str := Str(next, s.value);
        p := Malloc(Text(s.value));
      }
    }

    /** A node with its strings; the subtrees are linked but not looked at. */
    method AllocateNode(j: Json, next': Ptr, child: Ptr, ghost nextTree: Tree, ghost childTree: Tree)
        returns (p: Ptr, ghost t: Tree)
      requires Valid() && j.Item? && next' == PtrOf(nextTree) && child == PtrOf(childTree)
      modifies this
      ensures Valid() && freed == old(freed) && old(next) <= next
      ensures t.Cell? && t.next == nextTree && t.child == childTree && p == PtrOf(t)
      ensures EraseStr(t.name) == j.name && EraseStr(t.value) == j.value && t.kind == j.kind && t.number == j.number
      ensures t.at in mem && mem[t.at] == NodeOf(t) && StrHolds(mem, t.name) && StrHolds(mem, t.value)
      ensures {t.at} !! StrFoot(t.name) !! StrFoot(t.value)
      ensures mem.Keys == old(mem.Keys) + Own(t)
      ensures forall a :: a in Own(t) ==> old(next) <= a < next
      ensures forall a :: a in old(mem) ==> mem[a] == old(mem)[a]
    {
      var value, valueStr := Duplicate(j.value);
      var name, nameStr := Duplicate(j.name);
      t := Cell(next, j.kind, nameStr, valueStr, j.number, childTree, nextTree);
      p := Malloc(Node(next', child, j.kind, value, j.number, name));
    }

    /** cJSON_Parse: allocates a node for every item and a copy of every name and string value. */
    method Parse(j: Json) returns (p: Ptr, ghost t: Tree)
      requires Valid()
      modifies this
      ensures Valid() && freed == old(freed) && old(next) <= next
      ensures p == PtrOf(t) && Erase(t) == j && Holds(mem, t) && Separate(t)
      ensures mem.Keys == old(mem.Keys) + Foot(t)
      ensures forall a :: a in Foot(t) ==> old(next) <= a < next
      ensures forall a :: a in old(mem) ==> mem[a] == old(mem)[a]
      decreases j
    {
      if j.End? {
        p, t := Null, Nil;
      } else {
        var next', nextTree := Parse(j.next);
        label parsed:
        var child, childTree := Parse(j.child);
        HoldsIsLive(old@parsed(mem), nextTree);
        HoldsFrame(old@parsed(mem), mem, nextTree);
        label linked:
        p, t := AllocateNode(j, next', child, nextTree, childTree);
        CellHolds(old@linked(mem), mem, t);
      }
    }

    /** cJSON_Delete: frees an item, its strings, everything below it and everything after it. */
    method Delete(item: Ptr, ghost t: Tree)
      requires Valid() && item == PtrOf(t) && Holds(mem, t) && Separate(t)
      modifies this
      ensures Valid() && next == old(next)
      ensures mem == old(mem) - Foot(t) && freed == old(freed) + Foot(t)
      decreases t
    {
      var p := item;
      ghost var rest := t;
      while p != Null
        invariant Valid() && next == old(next)
        invariant p == PtrOf(rest) && Holds(mem, rest) && Separate(rest) && Foot(rest) <= Foot(t)
        invariant rest == t || rest < t
        invariant mem == old(mem) - (Foot(t) - Foot(rest))
        invariant freed == old(freed) + (Foot(t) - Foot(rest))
        decreases rest
      {
        p, rest := DeleteOne(p, rest);
      }
    }

    /** One round of the loop in `Delete`. */
    method DeleteOne(p: Ptr, ghost t: Tree) returns (next': Ptr, ghost rest: Tree)
      requires Valid() && t.Cell? && p == PtrOf(t) && Holds(mem, t) && Separate(t)
      modifies this
      ensures Valid() && next == old(next)
      ensures rest == t.next && next' == PtrOf(rest) && Holds(mem, rest)
      ensures mem == old(mem) - (Foot(t) - Foot(rest)) && freed == old(freed) + (Foot(t) - Foot(rest))
      decreases t, 0
    {
      HoldsIsLive(mem, t);
      var node := ReadNode(p);
      next', rest := node.next, t.next;
      assert Foot(t) - Foot(rest) == Foot(t.child) + Own(t);
      if node.child != Null {
        Delete(node.child, t.child);
      }
      FreeItem(p, node, t);
      HoldsFrame(old(mem), mem, rest);
    }

    /** Frees a node and its strings. */
    method FreeItem(p: Ptr, node: Block, ghost t: Tree)
      requires Valid() && t.Cell? && p == PtrOf(t) && node == NodeOf(t) && Own(t) <= mem.Keys
      requires {t.at} !! StrFoot(t.name) !! StrFoot(t.value)
      modifies this
      ensures Valid() && next == old(next)
      ensures mem == old(mem) - Own(t) && freed == old(freed) + Own(t)
    {
      if node.value != Null {
        Free(node.value);
      }
      if node.name != Null {
        Free(node.name);
      }
      Free(p);
    }

    /** cJSON_GetObjectItem: NULL for NULL and for a missing member. */
    method GetObjectItem(object': Ptr, key: string, ghost t: Tree) returns (p: Ptr)
      requires object' == PtrOf(t) && Holds(mem, t)
      ensures p == if t.Nil? then Null else PtrOf(LookupTree(t.child, key))
    {
      if object' == Null {
        return Null;
      }
      var node := ReadNode(object');
      p := node.child;
      ghost var rest := t.child;
      while p != Null
        invariant p == PtrOf(rest) && Holds(mem, rest)
        invariant LookupTree(rest, key) == LookupTree(t.child, key)
        decreases rest
      {
        node := ReadNode(p);
        if node.name != Null {
          var name := ReadText(node.name);
          if SameIgnoringCase(name, key) {
            return;
          }
        }
        p, rest := node.next, rest.next;
      }
    }

    /** cJSON_GetStringValue: NULL unless the item is a string. */
    method GetStringValue(item: Ptr, ghost t: Tree) returns (p: Ptr)
      requires item == PtrOf(t) && Holds(mem, t)
      ensures p == if t.Cell? && t.kind.StringKind? then StrPtr(t.value) else Null
    {
      if item == Null {
        return Null;
      }
      var node := ReadNode(item);
      p := if node.kind.StringKind? then node.value else Null;
    }
  }
}
