/** The component tree of URLEncodedFormEncoder.swift, built by path-addressed
    updates while a value is encoded depth first. */
module FormComponent {
  import opened Wrappers

  type Text = Bytes

  /** A CodingKey, by its intValue if it has one. */
  datatype Key = Index(index: nat) | Name(name: Text)

  datatype Entry = Entry(key: Text, value: Component)

  /** URLEncodedFormComponent; also a nested value to be encoded, with all its
      leaves turned into strings. */
  datatype Component =
    | Str(text: Text)
    | Arr(items: seq<Component>)
    | Obj(entries: seq<Entry>)

  // ---------------------------------------------------------------------
  // set(to:at:)
  // ---------------------------------------------------------------------

  /** context.array ?? [] and context.object ?? [] */
  function ItemsOf(c: Component): seq<Component> {
    if c.Arr? then c.items else []
  }

  function EntriesOf(c: Component): seq<Entry> {
    if c.Obj? then c.entries else []
  }

  /** firstIndex(where: { $0.key == key }), or the count. */
  function FirstIndex(entries: seq<Entry>, key: Text): (i: nat)
    ensures i <= |entries| && (i < |entries| ==> entries[i].key == key)
    ensures forall j | 0 <= j < i :: entries[j].key != key
  {
    if entries == [] || entries[0].key == key then 0 else 1 + FirstIndex(entries[1..], key)
  }

  /** The child that a key leads to, or a new container of the kind it asks for. */
  function Child(c: Component, key: Key): Component {
    match key
    case Index(i) => if |ItemsOf(c)| > i then c.items[i] else Arr([])
    case Name(k) =>
      var j := FirstIndex(EntriesOf(c), k);
      if j < |EntriesOf(c)| then c.entries[j].value else Obj([])
  }

  /** The component with another child under a key: in place if there is one,
      else behind the others; a component of another kind is replaced. */
  function WithChild(c: Component, key: Key, child: Component): Component {
    match key
    case Index(i) => if |ItemsOf(c)| > i then Arr(c.items[i := child]) else Arr(ItemsOf(c) + [child])
    case Name(k) =>
      var j := FirstIndex(EntriesOf(c), k);
      if j < |EntriesOf(c)| then Obj(c.entries[j := Entry(k, child)]) else Obj(EntriesOf(c) + [Entry(k, child)])
  }

  /** The recursive set. */
  function SetAt(context: Component, value: Component, path: seq<Key>): Component
    decreases |path|
  {
    if |path| == 0 then value
    else if |path| == 1 then WithChild(context, path[0], value)
    else WithChild(context, path[0], SetAt(Child(context, path[0]), value, path[1..]))
  }

  // ---------------------------------------------------------------------
  // Encoding
  // ---------------------------------------------------------------------

  datatype Leaf = Leaf(path: seq<Key>, text: Text)

  function Prefixed(key: Key, leaves: seq<Leaf>): (r: seq<Leaf>)
    ensures |r| == |leaves|
    ensures forall i | 0 <= i < |leaves| :: r[i] == Leaf([key] + leaves[i].path, leaves[i].text)
  {
    if leaves == [] then [] else [Leaf([key] + leaves[0].path, leaves[0].text)] + Prefixed(key, leaves[1..])
  }

  /** The leaves of a value with their coding paths, depth first. */
  function Leaves(v: Component): seq<Leaf>
    decreases v, 0
  {
    match v
    case Str(text) => [Leaf([], text)]
    case Arr(items) => ItemLeaves(items, 0)
    case Obj(entries) => EntryLeaves(entries, 0)
  }

  function ItemLeaves(items: seq<Component>, i: nat): seq<Leaf>
    requires i <= |items|
    decreases items, |items| - i
  {
    if i == |items| then [] else Prefixed(Index(i), Leaves(items[i])) + ItemLeaves(items, i + 1)
  }

  function EntryLeaves(entries: seq<Entry>, i: nat): seq<Leaf>
    requires i <= |entries|
    decreases entries, |entries| - i
  {
    if i == |entries| then [] else Prefixed(Name(entries[i].key), Leaves(entries[i].value)) + EntryLeaves(entries, i + 1)
  }

  /** set(to: .string(text), at: path) for each leaf in turn. */
  function SetAll(c: Component, leaves: seq<Leaf>): Component
    decreases |leaves|
  {
    if leaves == [] then c else SetAll(SetAt(c, Str(leaves[0].text), leaves[0].path), leaves[1..])
  }

  /** What URLEncodedFormEncoder makes of a value: its context starts as an empty
      object. */
  function Encoded(v: Component): Component {
    SetAll(Obj([]), Leaves(v))
  }

  // ---------------------------------------------------------------------
  // Path-addressed updates rebuild the tree
  // ---------------------------------------------------------------------

  /** Keys distinct within each object, and no empty array or object. */
  predicate Plain(v: Component) {
    match v
    case Str(_) => true
    case Arr(items) => items != [] && forall i | 0 <= i < |items| :: Plain(items[i])
    case Obj(entries) => entries != [] && DistinctKeys(entries) && forall i | 0 <= i < |entries| :: Plain(entries[i].value)
  }

  predicate DistinctKeys(entries: seq<Entry>) {
    forall i, j | 0 <= i < j < |entries| :: entries[i].key != entries[j].key
  }

  /** An empty container, as it is first met at a new path. */
  predicate Blank(c: Component) {
    c == Arr([]) || c == Obj([])
  }

  lemma {:induction false} SetAllConcat(c: Component, a: seq<Leaf>, b: seq<Leaf>)
    ensures SetAll(c, a + b) == SetAll(SetAll(c, a), b)
    decreases |a|
  {
    if a == [] {
      assert a + b == b;
    } else {
      assert (a + b)[1..] == a[1..] + b && (a + b)[0] == a[0];
      SetAllConcat(SetAt(c, Str(a[0].text), a[0].path), a[1..], b);
    }
  }

  /** A component that takes children under `key` at a fixed place. */
  predicate Holds(c: Component, key: Key) {
    match key
    case Index(i) => i <= |ItemsOf(c)|
    case Name(_) => true
  }

  lemma ChildOfWithChild(c: Component, key: Key, a: Component, b: Component)
    requires Holds(c, key)
    ensures Holds(WithChild(c, key, a), key)
    ensures Child(WithChild(c, key, a), key) == a
    ensures WithChild(WithChild(c, key, a), key, b) == WithChild(c, key, b)
  {
    match key
    case Index(i) =>
      if |ItemsOf(c)| <= i { assert (ItemsOf(c) + [a])[i := b] == ItemsOf(c) + [b]; }
    case Name(k) =>
      var es := EntriesOf(c);
      var j := FirstIndex(es, k);
      if j < |es| {
        FirstIndexIs(es[j := Entry(k, a)], k, j);
      } else {
        FirstIndexIs(es + [Entry(k, a)], k, j);
        assert (es + [Entry(k, a)])[j := Entry(k, b)] == es + [Entry(k, b)];
      }
  }

  lemma {:induction false} FirstIndexIs(entries: seq<Entry>, key: Text, i: nat)
    requires i < |entries| && entries[i].key == key && forall j | 0 <= j < i :: entries[j].key != key
    ensures FirstIndex(entries, key) == i
  {
    if i > 0 { FirstIndexIs(entries[1..], key, i - 1); }
  }

  lemma SetAtStep(c: Component, value: Component, key: Key, path: seq<Key>)
    ensures SetAt(c, value, [key] + path) == WithChild(c, key, SetAt(Child(c, key), value, path))
  {
    assert ([key] + path)[1..] == path;
  }

  /** Updates below one key build up the child under that key. */
  lemma {:induction false} SetAllBelow(c: Component, key: Key, leaves: seq<Leaf>)
    requires Holds(c, key) && leaves != []
    ensures SetAll(c, Prefixed(key, leaves)) == WithChild(c, key, SetAll(Child(c, key), leaves))
    decreases |leaves|
  {
    var first := SetAt(Child(c, key), Str(leaves[0].text), leaves[0].path);
    var c1 := WithChild(c, key, first);
    SetAtStep(c, Str(leaves[0].text), key, leaves[0].path);
    assert Prefixed(key, leaves)[1..] == Prefixed(key, leaves[1..]);
    ChildOfWithChild(c, key, first, first);
    if |leaves| > 1 {
      SetAllBelow(c1, key, leaves[1..]);
      ChildOfWithChild(c, key, first, SetAll(first, leaves[1..]));
    } else {
      assert leaves[1..] == [];
    }
  }

  lemma {:induction false} HasLeaves(v: Component)
    requires Plain(v)
    ensures Leaves(v) != []
    decreases v
  {
    match v
    case Str(_) =>
    case Arr(items) => HasLeaves(items[0]);
    case Obj(entries) => HasLeaves(entries[0].value);
  }

  /** From an empty container of any kind, the leaves of a plain value rebuild it. */
  lemma {:induction false} Rebuilds(c: Component, v: Component)
    requires Blank(c) && Plain(v)
    ensures SetAll(c, Leaves(v)) == v
    decreases v, 0
  {
    match v
    case Str(text) =>
      assert [Leaf([], text)][1..] == [];
    case Arr(items) =>
      FirstItem(c, items);
    case Obj(entries) =>
      FirstEntry(c, entries);
  }

  lemma {:induction false} FirstItem(c: Component, items: seq<Component>)
    requires Blank(c) && items != [] && forall i | 0 <= i < |items| :: Plain(items[i])
    ensures SetAll(c, ItemLeaves(items, 0)) == Arr(items)
    decreases items, |items| + 1
  {
    HasLeaves(items[0]);
    var first := Prefixed(Index(0), Leaves(items[0]));
    SetAllConcat(c, first, ItemLeaves(items, 1));
    SetAllBelow(c, Index(0), Leaves(items[0]));
    Rebuilds(Arr([]), items[0]);
    assert SetAll(c, first) == Arr(items[..1]);
    RebuildsItems(items, 1);
  }

  lemma {:induction false} RebuildsItems(items: seq<Component>, i: nat)
    requires i <= |items| && forall k | 0 <= k < |items| :: Plain(items[k])
    ensures SetAll(Arr(items[..i]), ItemLeaves(items, i)) == Arr(items)
    decreases items, |items| - i
  {
    if i == |items| {
      assert items[..i] == items;
    } else {
      var c := Arr(items[..i]);
      HasLeaves(items[i]);
      SetAllConcat(c, Prefixed(Index(i), Leaves(items[i])), ItemLeaves(items, i + 1));
      SetAllBelow(c, Index(i), Leaves(items[i]));
      Rebuilds(Arr([]), items[i]);
      NewItem(items, i);
      RebuildsItems(items, i + 1);
    }
  }

  /** The next index leads to a new item behind the others. */
  lemma NewItem(items: seq<Component>, i: nat)
    requires i < |items|
    ensures var c := Arr(items[..i]);
            Child(c, Index(i)) == Arr([]) && WithChild(c, Index(i), items[i]) == Arr(items[..i + 1])
  {
    assert items[..i] + [items[i]] == items[..i + 1];
  }

  lemma {:induction false} FirstEntry(c: Component, entries: seq<Entry>)
    requires Blank(c) && entries != [] && DistinctKeys(entries) && forall i | 0 <= i < |entries| :: Plain(entries[i].value)
    ensures SetAll(c, EntryLeaves(entries, 0)) == Obj(entries)
    decreases entries, |entries| + 1
  {
    var e := entries[0];
    HasLeaves(e.value);
    var first := Prefixed(Name(e.key), Leaves(e.value));
    SetAllConcat(c, first, EntryLeaves(entries, 1));
    SetAllBelow(c, Name(e.key), Leaves(e.value));
    Rebuilds(Obj([]), e.value);
    assert EntriesOf(c) == [] && SetAll(c, first) == Obj([e]);
    assert entries[..1] == [e];
    RebuildsEntries(entries, 1);
  }

  lemma {:induction false} RebuildsEntries(entries: seq<Entry>, i: nat)
    requires i <= |entries| && DistinctKeys(entries) && forall k | 0 <= k < |entries| :: Plain(entries[k].value)
    ensures SetAll(Obj(entries[..i]), EntryLeaves(entries, i)) == Obj(entries)
    decreases entries, |entries| - i
  {
    if i == |entries| {
      assert entries[..i] == entries;
    } else {
      var c, e := Obj(entries[..i]), entries[i];
      HasLeaves(e.value);
      SetAllConcat(c, Prefixed(Name(e.key), Leaves(e.value)), EntryLeaves(entries, i + 1));
      SetAllBelow(c, Name(e.key), Leaves(e.value));
      Rebuilds(Obj([]), e.value);
      NewEntry(entries, i);
      RebuildsEntries(entries, i + 1);
    }
  }

  /** A key that has not been seen leads to a new entry behind the others. */
  lemma NewEntry(entries: seq<Entry>, i: nat)
    requires i < |entries| && DistinctKeys(entries)
    ensures var c, key := Obj(entries[..i]), Name(entries[i].key);
            Child(c, key) == Obj([]) && WithChild(c, key, entries[i].value) == Obj(entries[..i + 1])
  {
    assert FirstIndex(entries[..i], entries[i].key) == i;
    assert entries[..i] + [entries[i]] == entries[..i + 1];
  }

  // ---------------------------------------------------------------------
  // Exactly the plain values are rebuilt
  // ---------------------------------------------------------------------

  lemma {:induction false} SetAtPlain(c: Component, text: Text, path: seq<Key>)
    requires Plain(c) || Blank(c)
    ensures Plain(SetAt(c, Str(text), path))
    decreases |path|
  {
    if |path| > 0 {
      var key := path[0];
      var child := if |path| == 1 then Str(text) else SetAt(Child(c, key), Str(text), path[1..]);
      if |path| > 1 { SetAtPlain(Child(c, key), text, path[1..]); }
      WithChildPlain(c, key, child);
    }
  }

  lemma WithChildPlain(c: Component, key: Key, child: Component)
    requires (Plain(c) || Blank(c)) && Plain(child)
    ensures Plain(WithChild(c, key, child))
  {
  }

  lemma {:induction false} SetAllPlain(c: Component, leaves: seq<Leaf>)
    requires Plain(c) || Blank(c)
    ensures leaves != [] ==> Plain(SetAll(c, leaves))
    ensures Plain(SetAll(c, leaves)) || SetAll(c, leaves) == c
    decreases |leaves|
  {
    if leaves != [] {
      SetAtPlain(c, leaves[0].text, leaves[0].path);
      SetAllPlain(SetAt(c, Str(leaves[0].text), leaves[0].path), leaves[1..]);
    }
  }

  /** Encoding keeps a value, with its array order and its order of keys, exactly
      when it is plain, but for the empty object itself. */
  lemma EncodedKeeps(v: Component)
    ensures Encoded(v) == v <==> Plain(v) || v == Obj([])
  {
    if Plain(v) { Rebuilds(Obj([]), v); }
    SetAllPlain(Obj([]), Leaves(v));
  }

  // ---------------------------------------------------------------------
  // The encoder and its containers
  // ---------------------------------------------------------------------

  /** URLEncodedFormContext */
  class FormContext {
    var component: Component

    constructor ()
      ensures component == Obj([])
    {
      component := Obj([]);
    }

    method Set(value: Component, path: seq<Key>)
      modifies this
      ensures component == SetAt(old(component), value, path)
    {
      component := SetAt(component, value, path);
    }
  }

  /** UnkeyedContainer, whose count is the index of the next item. */
  class UnkeyedContainer {
    const context: FormContext
    const codingPath: seq<Key>
    var count: nat

    constructor (context: FormContext, codingPath: seq<Key>)
      ensures this.context == context && this.codingPath == codingPath && count == 0
    {
      this.context, this.codingPath := context, codingPath;
      count := 0;
    }

    /** nestedCodingPath, with the deferred increment of count. */
    method NestedPath() returns (path: seq<Key>)
      modifies this
      ensures path == codingPath + [Index(old(count))] && count == old(count) + 1
    {
      path := codingPath + [Index(count)];
      count := count + 1;
    }
  }

  /** The leaves of a value at a coding path. */
  function At(path: seq<Key>, leaves: seq<Leaf>): seq<Leaf> {
    if leaves == [] then [] else [Leaf(path + leaves[0].path, leaves[0].text)] + At(path, leaves[1..])
  }

  lemma {:induction false} AtNested(path: seq<Key>, key: Key, leaves: seq<Leaf>)
    ensures At(path, Prefixed(key, leaves)) == At(path + [key], leaves)
  {
    if leaves != [] {
      assert Prefixed(key, leaves)[1..] == Prefixed(key, leaves[1..]);
      AtNested(path, key, leaves[1..]);
      assert path + ([key] + leaves[0].path) == path + [key] + leaves[0].path;
    }
  }

  lemma {:induction false} AtConcat(path: seq<Key>, a: seq<Leaf>, b: seq<Leaf>)
    ensures At(path, a + b) == At(path, a) + At(path, b)
  {
    if a == [] {
      assert a + b == b;
    } else {
      assert (a + b)[1..] == a[1..] + b;
      AtConcat(path, a[1..], b);
    }
  }

  lemma {:induction false} AtRoot(leaves: seq<Leaf>)
    ensures At([], leaves) == leaves
  {
    if leaves != [] {
      AtRoot(leaves[1..]);
      assert [] + leaves[0].path == leaves[0].path;
    }
  }

  /** value.encode(to:) through the containers, at a coding path. */
  method EncodeAt(context: FormContext, v: Component, path: seq<Key>)
    modifies context
    ensures context.component == SetAll(old(context.component), At(path, Leaves(v)))
    decreases v
  {
    match v
    case Str(text) =>
      assert [Leaf([], text)][1..] == [] && path + [] == path;
      context.Set(Str(text), path);
    case Arr(items) =>
      ghost var c0 := context.component;
      var container := new UnkeyedContainer(context, path);
      while container.count < |items|
        invariant container.count <= |items| && container.codingPath == path && fresh(container)
        invariant SetAll(context.component, At(path, ItemLeaves(items, container.count)))
                  == SetAll(c0, At(path, ItemLeaves(items, 0)))
        decreases |items| - container.count
      {
        ghost var i := container.count;
        var item := items[container.count];
        var nested := container.NestedPath();
        NextLeaves(context.component, path, Index(i), Leaves(item), ItemLeaves(items, i + 1));
        EncodeAt(context, item, nested);
      }
    case Obj(entries) =>
      ghost var c0 := context.component;
      var i := 0;
      while i < |entries|
        invariant 0 <= i <= |entries|
        invariant SetAll(context.component, At(path, EntryLeaves(entries, i)))
                  == SetAll(c0, At(path, EntryLeaves(entries, 0)))
      {
        var e := entries[i];
        NextLeaves(context.component, path, Name(e.key), Leaves(e.value), EntryLeaves(entries, i + 1));
        EncodeAt(context, e.value, path + [Name(e.key)]);
        i := i + 1;
      }
  }

  lemma NextLeaves(c: Component, path: seq<Key>, key: Key, leaves: seq<Leaf>, rest: seq<Leaf>)
    ensures SetAll(c, At(path, Prefixed(key, leaves) + rest))
            == SetAll(SetAll(c, At(path + [key], leaves)), At(path, rest))
  {
    AtConcat(path, Prefixed(key, leaves), rest);
    AtNested(path, key, leaves);
    SetAllConcat(c, At(path + [key], leaves), At(path, rest));
  }

  /** URLEncodedFormEncoder.encode up to its component tree: for a plain value
      that is the value itself. */
  method Encode(v: Component) returns (c: Component)
    ensures c == Encoded(v)
    ensures Plain(v) ==> c == v
  {
    var context := new FormContext();
    EncodeAt(context, v, []);
    AtRoot(Leaves(v));
    EncodedKeeps(v);
    return context.component;
  }
}
