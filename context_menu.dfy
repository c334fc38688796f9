/**
 * The context-menu aggregator of src/actionManagement/contextMenuImpl.ts:
 * contributors registered by id, and the menu tree built from the items they
 * contribute. A menu item is filed under its category path: one node per
 * category, reused when a sibling of that name exists, and the item itself as
 * a leaf at the end of the deepest list.
 *
 * The source builds the tree in place, walking a `currentList` that aliases
 * the children arrays of the nodes it passes; here the walk is a function that
 * returns the updated tree.
 */
module ContextMenu {
  import opened Wrappers

  /** An IContextMenuItem a contributor hands in; `onClick` is the callback's identity. */
  datatype Item = Item(selector: string, name: string, categories: Option<seq<string>>, onClick: nat)

  /** A ContextMenuItemNode. */
  datatype Node = Node(selector: string, name: string, categories: Option<seq<string>>, onClick: nat, children: seq<Node>)

  /** An IContextMenuContributor, and which of the two optional notifications it has. */
  datatype Contributor = Contributor(id: string, hasStarted: bool, hasFinished: bool)

  datatype Notification = CalculationStarted | CalculationFinished

  /** The calls calculateMenuItemsTree makes on contributors, in order. */
  datatype MenuEvent = Notified(notification: Notification, contributor: string) | ItemsCalculated(contributor: string)

  /** The items each contributor returns, as a function of the calls made so far. */
  datatype MenuEnv = MenuEnv(items: (string, seq<MenuEvent>) -> seq<Item>)

  /** A tree under construction and the calls made so far. */
  datatype MenuState = MenuState(roots: seq<Node>, trace: seq<MenuEvent>)

  // ---------------------------------------------------------------------------
  // Registry
  // ---------------------------------------------------------------------------

  /** The module-level `contributors` dictionary, with the order in which its keys were first set. */
  class MenuRegistry {
    var contributors: map<string, Contributor>
    var order: seq<string>

    /** Every key is listed once in `order`, and every contributor is stored under its own id. */
    ghost predicate Valid()
      reads this
    {
      (forall i, j :: 0 <= i < j < |order| ==> order[i] != order[j])
      && (forall k :: k in contributors <==> k in order)
      && (forall k :: k in contributors ==> contributors[k].id == k)
    }

    constructor()
      ensures contributors == map[] && order == [] && Valid()
    {
      contributors := map[];
      order := [];
    }

    /** registerContributor: stored by id; a second contributor with the same id replaces the first, in its place. */
    method RegisterContributor(c: Contributor)
      modifies this
      ensures contributors == old(contributors)[c.id := c]
      ensures order == if c.id in old(contributors) then old(order) else old(order) + [c.id]
      ensures old(Valid()) ==> Valid()
    {
      if c.id !in contributors {
        order := order + [c.id];
      }
      contributors := contributors[c.id := c];
    }

    /** addMenuItem is an empty function in the source. */
    method AddMenuItem(item: Item)
      ensures contributors == old(contributors) && order == old(order)
    {
    }

    /** deleteMenuItems is an empty function in the source. */
    method DeleteMenuItems(selector: string)
      ensures contributors == old(contributors) && order == old(order)
    {
    }

    /** deleteMenuItem is an empty function in the source. */
    method DeleteMenuItem(selector: string, name: string, categories: Option<seq<string>>)
      ensures contributors == old(contributors) && order == old(order)
    {
    }

    /**
     * calculateMenuItemsTree: every contributor's `calculationStarted`, then
     * every contributor's items filed into a fresh tree, then every
     * `calculationFinished`; contributors in key order.
     */
    method CalculateMenuItemsTree(env: MenuEnv) returns (result: seq<Node>, trace: seq<MenuEvent>)
      requires Valid()
      ensures MenuState(result, trace) == MenuPipeline(order, contributors, env)
    {
      var started := Notify(CalculationStarted, order, contributors);
      result, trace := CollectItems(order, env, started);
      var finished := Notify(CalculationFinished, order, contributors);
      trace := trace + finished;
    }
  }

  /** One notification loop over the contributors, in key order. */
  method Notify(n: Notification, order: seq<string>, contributors: map<string, Contributor>) returns (calls: seq<MenuEvent>)
    requires forall k :: k in order ==> k in contributors
    ensures calls == NotifyAll(n, order, contributors)
  {
    calls := [];
    var i := 0;
    while i < |order|
      invariant 0 <= i <= |order|
      invariant calls == NotifyAll(n, order[..i], contributors)
    {
      if Has(contributors[order[i]], n) {
        calls := calls + [Notified(n, order[i])];
      }
      assert order[..i + 1][..i] == order[..i];
      i := i + 1;
    }
    assert order[..|order|] == order;
  }

  /** The items loop: each contributor's items, filed into the tree in turn. */
  method CollectItems(order: seq<string>, env: MenuEnv, started: seq<MenuEvent>) returns (result: seq<Node>, trace: seq<MenuEvent>)
    ensures MenuState(result, trace) == ItemsSweep(order, env, MenuState([], started))
  {
    result := [];
    trace := started;
    var i := 0;
    while i < |order|
      invariant 0 <= i <= |order|
      invariant MenuState(result, trace) == ItemsSweep(order[..i], env, MenuState([], started))
    {
      var items := env.items(order[i], trace);
      trace := trace + [ItemsCalculated(order[i])];
      result := FileItems(result, items);
      assert order[..i + 1][..i] == order[..i];
      i := i + 1;
    }
    assert order[..|order|] == order;
  }

  /** The `forEach` that files one contributor's items. */
  method FileItems(roots: seq<Node>, items: seq<Item>) returns (result: seq<Node>)
    ensures result == AddAll(roots, items)
  {
    result := roots;
    var j := 0;
    while j < |items|
      invariant 0 <= j <= |items|
      invariant result == AddAll(roots, items[..j])
    {
      result := AddItemsTreeNode(result, items[j]);
      assert items[..j + 1][..j] == items[..j];
      j := j + 1;
    }
    assert items[..|items|] == items;
  }

  // ---------------------------------------------------------------------------
  // The three sweeps
  // ---------------------------------------------------------------------------

  predicate Has(c: Contributor, n: Notification) {
    if n == CalculationStarted then c.hasStarted else c.hasFinished
  }

  /** The notifications one sweep sends, in key order, to the contributors that have it. */
  function NotifyAll(n: Notification, ids: seq<string>, contributors: map<string, Contributor>): seq<MenuEvent>
    requires forall k :: k in ids ==> k in contributors
  {
    if ids == [] then []
    else
      var last := ids[|ids| - 1];
      NotifyAll(n, ids[..|ids| - 1], contributors)
      + (if Has(contributors[last], n) then [Notified(n, last)] else [])
  }

  /** The items sweep: each contributor's items, asked for in key order, filed one by one. */
  function ItemsSweep(ids: seq<string>, env: MenuEnv, s: MenuState): MenuState {
    if ids == [] then s
    else
      var before := ItemsSweep(ids[..|ids| - 1], env, s);
      var items := env.items(ids[|ids| - 1], before.trace);
      MenuState(AddAll(before.roots, items), before.trace + [ItemsCalculated(ids[|ids| - 1])])
  }

  /** calculateMenuItemsTree, as a function of the registry. */
  function MenuPipeline(order: seq<string>, contributors: map<string, Contributor>, env: MenuEnv): MenuState
    requires forall k :: k in order ==> k in contributors
  {
    var started := NotifyAll(CalculationStarted, order, contributors);
    var filled := ItemsSweep(order, env, MenuState([], started));
    MenuState(filled.roots, filled.trace + NotifyAll(CalculationFinished, order, contributors))
  }

  /** One `calculateItems` call per contributor, in key order. */
  function ItemsCalls(ids: seq<string>): (r: seq<MenuEvent>)
    ensures |r| == |ids|
    ensures forall i :: 0 <= i < |ids| ==> r[i] == ItemsCalculated(ids[i])
  {
    seq(|ids|, i requires 0 <= i < |ids| => ItemsCalculated(ids[i]))
  }

  lemma {:induction false} ItemsSweepCalls(ids: seq<string>, env: MenuEnv, s: MenuState)
    ensures ItemsSweep(ids, env, s).trace == s.trace + ItemsCalls(ids)
  {
    if ids != [] {
      var init := ids[..|ids| - 1];
      ItemsSweepCalls(init, env, s);
      assert ItemsCalls(ids) == ItemsCalls(init) + [ItemsCalculated(ids[|ids| - 1])];
    } else {
      assert ItemsCalls(ids) == [];
    }
  }

  /**
   * calculateMenuItemsTree notifies every contributor that has
   * `calculationStarted`, then asks every contributor for its items once, then
   * notifies every contributor that has `calculationFinished`, each sweep in
   * key order. The tree is built from an empty root list, so when no item has
   * an empty category, no two siblings of the finished tree share a name.
   */
  lemma MenuPipelineCalls(order: seq<string>, contributors: map<string, Contributor>, env: MenuEnv)
    requires forall k :: k in order ==> k in contributors
    ensures var p := MenuPipeline(order, contributors, env);
      p.trace == NotifyAll(CalculationStarted, order, contributors) + ItemsCalls(order)
                 + NotifyAll(CalculationFinished, order, contributors)
      && ((forall id, t :: PathsNonEmpty(env.items(id, t))) ==> UniqueNames(p.roots))
  {
    var s := MenuState([], NotifyAll(CalculationStarted, order, contributors));
    ItemsSweepCalls(order, env, s);
    if forall id, t :: PathsNonEmpty(env.items(id, t)) {
      ItemsSweepKeepsUnique(order, env, s);
    }
  }

  // ---------------------------------------------------------------------------
  // Filing one item
  // ---------------------------------------------------------------------------

  /**
   * `new ContextMenuItemNode(item, nameOverride)`: the item's selector,
   * categories and callback, no children, and the override as name unless it
   * is empty, which JavaScript reads as absent.
   */
  function NewNode(item: Item, nameOverride: string): (n: Node)
    ensures n.children == [] && n.onClick == item.onClick && n.selector == item.selector
    ensures n.categories == item.categories
    ensures n.name == (if nameOverride != "" then nameOverride else item.name)
  {
    Node(item.selector, if nameOverride != "" then nameOverride else item.name, item.categories, item.onClick, [])
  }

  /** `_.find` by name: the index of the first node named `name`. */
  function FindByName(list: seq<Node>, name: string): (r: Option<nat>)
    ensures r.Some? ==> r.value < |list| && list[r.value].name == name
    ensures r.Some? ==> forall j :: 0 <= j < r.value ==> list[j].name != name
    ensures r.None? ==> forall j :: 0 <= j < |list| ==> list[j].name != name
  {
    if list == [] then None
    else if list[0].name == name then Some(0)
    else match FindByName(list[1..], name)
      case None => None
      case Some(i) => Some(i + 1)
  }

  lemma FindByNameIs(list: seq<Node>, name: string, i: nat)
    requires i < |list| && list[i].name == name
    requires forall j :: 0 <= j < i ==> list[j].name != name
    ensures FindByName(list, name) == Some(i)
  {
  }

  /** The list without its first node named `name`, the others in their order. */
  function RemoveFirstNamed(list: seq<Node>, name: string): seq<Node> {
    match FindByName(list, name)
    case None => list
    case Some(i) => list[..i] + list[i + 1..]
  }

  /** The walk of addItemsTreeNode from `list` along `path`, and the leaf at its end. */
  function Insert(list: seq<Node>, item: Item, path: seq<string>): seq<Node>
    decreases |path|
  {
    if path == [] then RemoveFirstNamed(list, item.name) + [NewNode(item, "")]
    else match FindByName(list, path[0])
      case Some(i) => list[i := list[i].(children := Insert(list[i].children, item, path[1..]))]
      case None => list + [NewNode(item, path[0]).(children := Insert([], item, path[1..]))]
  }

  /** The category path of an item: none when it has no categories. */
  function PathOf(item: Item): seq<string> {
    if item.categories.Some? then item.categories.value else []
  }

  /** addItemsTreeNode */
  function AddItemsTreeNode(roots: seq<Node>, item: Item): seq<Node> {
    Insert(roots, item, PathOf(item))
  }

  /** The `forEach` over one contributor's items. */
  function AddAll(roots: seq<Node>, items: seq<Item>): seq<Node> {
    if items == [] then roots else AddItemsTreeNode(AddAll(roots, items[..|items| - 1]), items[|items| - 1])
  }

  /** The list reached by following `path` by first name match, if every segment is found. */
  function Descend(list: seq<Node>, path: seq<string>): Option<seq<Node>>
    decreases |path|
  {
    if path == [] then Some(list)
    else match FindByName(list, path[0])
      case None => None
      case Some(i) => Descend(list[i].children, path[1..])
  }

  predicate NonEmptySegments(path: seq<string>) {
    forall i :: 0 <= i < |path| ==> path[i] != ""
  }

  /** No two siblings share a name, at any level. */
  predicate UniqueNames(list: seq<Node>)
    decreases list
  {
    (forall i, j :: 0 <= i < j < |list| ==> list[i].name != list[j].name)
    && (forall i :: 0 <= i < |list| ==> UniqueNames(list[i].children))
  }

  // ---------------------------------------------------------------------------
  // Properties of the walk
  // ---------------------------------------------------------------------------

  /** Removing the first same-named node keeps every other node, in order. */
  lemma RemoveFirstNamedKeepsOthers(list: seq<Node>, name: string)
    ensures var r := RemoveFirstNamed(list, name);
      (forall n :: n in list && n.name != name ==> n in r)
      && (forall n :: n in r ==> n in list)
      && |r| == (if FindByName(list, name).Some? then |list| - 1 else |list|)
    ensures var r := RemoveFirstNamed(list, name);
      match FindByName(list, name)
      case None => r == list
      case Some(i) =>
        (forall j :: 0 <= j < i ==> r[j] == list[j])
        && (forall j :: i <= j < |r| ==> r[j] == list[j + 1])
  {
    match FindByName(list, name)
    case None =>
    case Some(i) =>
      var r := list[..i] + list[i + 1..];
      DropAt(list, i);
      forall n | n in list && n.name != name ensures n in r {
        var k :| 0 <= k < |list| && list[k] == n;
        if k < i {
          assert r[k] == n;
        } else {
          assert k != i;
          assert r[k - 1] == n;
        }
      }
  }

  /** Where each element of a sequence goes when the one at `i` is dropped. */
  lemma DropAt<T>(s: seq<T>, i: nat)
    requires i < |s|
    ensures var r := s[..i] + s[i + 1..];
      |r| == |s| - 1
      && (forall j :: 0 <= j < i ==> r[j] == s[j])
      && (forall j :: i <= j < |r| ==> r[j] == s[j + 1])
      && (forall x :: x in r ==> x in s)
  {
  }

  /**
   * Filing an item without categories puts a new leaf with the item's name,
   * callback and selector at the end of the list, after the other nodes in
   * their order; an older node of that name, with its whole subtree, is gone.
   */
  lemma InsertLeaf(list: seq<Node>, item: Item)
    ensures var r := Insert(list, item, []);
      |r| >= 1 && r[|r| - 1] == NewNode(item, "") && r[|r| - 1].name == item.name
      && r[..|r| - 1] == RemoveFirstNamed(list, item.name)
      && (forall n :: n in list && n.name != item.name ==> n in r)
      && (FindByName(list, item.name).None? ==> r[..|r| - 1] == list)
  {
    var r := Insert(list, item, []);
    assert r[..|r| - 1] == RemoveFirstNamed(list, item.name);
    RemoveFirstNamedKeepsOthers(list, item.name);
  }

  /**
   * At each segment the walk leaves every other sibling where it was; it
   * reuses the first node of that name, changing nothing of it but its
   * children, or appends exactly one new node made from the item.
   */
  lemma InsertSegment(list: seq<Node>, item: Item, path: seq<string>)
    requires path != []
    ensures var r := Insert(list, item, path);
      match FindByName(list, path[0])
      case Some(i) =>
        |r| == |list| && r[i].name == path[0] && r[i].(children := list[i].children) == list[i]
        && forall j :: 0 <= j < |list| && j != i ==> r[j] == list[j]
      case None =>
        |r| == |list| + 1 && r[..|list|] == list
        && r[|list|].(children := []) == NewNode(item, path[0])
        && r[|list|].name == (if path[0] != "" then path[0] else item.name)
  {
  }

  /** After filing, following the category path leads to a list that ends with the item's leaf. */
  lemma {:induction false} InsertReachesLeaf(list: seq<Node>, item: Item, path: seq<string>)
    requires NonEmptySegments(path)
    ensures var d := Descend(Insert(list, item, path), path);
      d.Some? && |d.value| >= 1 && d.value[|d.value| - 1] == NewNode(item, "")
    decreases |path|
  {
    if path != [] {
      assert NonEmptySegments(path[1..]);
      InsertReachesLeaf(Below(list, path[0]), item, path[1..]);
      DescendAfterInsert(list, item, path);
    }
  }

  /** The children of the first node named `name`, or none when there is no such node. */
  function Below(list: seq<Node>, name: string): seq<Node> {
    match FindByName(list, name)
    case Some(i) => list[i].children
    case None => []
  }

  /** Following the first segment after filing leads into the list the rest of the path was filed in. */
  lemma DescendAfterInsert(list: seq<Node>, item: Item, path: seq<string>)
    requires path != [] && path[0] != ""
    ensures Descend(Insert(list, item, path), path) == Descend(Insert(Below(list, path[0]), item, path[1..]), path[1..])
  {
    var r := Insert(list, item, path);
    match FindByName(list, path[0])
    case Some(i) =>
      assert r[i].name == path[0];
      assert forall j :: 0 <= j < i ==> r[j] == list[j];
      FindByNameIs(r, path[0], i);
    case None =>
      assert r[|list|].name == path[0];
      assert forall j :: 0 <= j < |list| ==> r[j] == list[j];
      FindByNameIs(r, path[0], |list|);
  }

  lemma UniqueAppend(list: seq<Node>, n: Node)
    requires UniqueNames(list) && UniqueNames(n.children)
    requires forall j :: 0 <= j < |list| ==> list[j].name != n.name
    ensures UniqueNames(list + [n])
  {
    var r := list + [n];
    assert forall i :: 0 <= i < |list| ==> r[i] == list[i];
  }

  lemma UniqueRemove(list: seq<Node>, name: string)
    requires UniqueNames(list)
    ensures UniqueNames(RemoveFirstNamed(list, name))
    ensures forall n :: n in RemoveFirstNamed(list, name) ==> n.name != name
  {
    match FindByName(list, name)
    case None =>
    case Some(i) =>
      var r := list[..i] + list[i + 1..];
      DropAt(list, i);
      forall a, b | 0 <= a < b < |r| ensures r[a].name != r[b].name {
        var a' := if a < i then a else a + 1;
        var b' := if b < i then b else b + 1;
        assert r[a] == list[a'] && r[b] == list[b'];
      }
      forall a | 0 <= a < |r| ensures UniqueNames(r[a].children) && r[a].name != name {
        var a' := if a < i then a else a + 1;
        assert r[a] == list[a'];
        assert a' != i;
      }
  }

  /** With no empty category, filing an item keeps sibling names unique at every level. */
  lemma {:induction false} InsertKeepsUnique(list: seq<Node>, item: Item, path: seq<string>)
    requires UniqueNames(list) && NonEmptySegments(path)
    ensures UniqueNames(Insert(list, item, path))
    decreases |path|
  {
    if path == [] {
      UniqueRemove(list, item.name);
      var rest := RemoveFirstNamed(list, item.name);
      assert forall j :: 0 <= j < |rest| ==> rest[j] in rest;
      UniqueAppend(rest, NewNode(item, ""));
    } else {
      assert NonEmptySegments(path[1..]);
      match FindByName(list, path[0])
      case Some(i) =>
        InsertKeepsUnique(list[i].children, item, path[1..]);
        var r := Insert(list, item, path);
        assert forall j :: 0 <= j < |r| && j != i ==> r[j] == list[j];
      case None =>
        InsertKeepsUnique([], item, path[1..]);
        UniqueAppend(list, NewNode(item, path[0]).(children := Insert([], item, path[1..])));
    }
  }

  /**
   * Last writer wins: once an item is filed under a category path with no
   * empty segment, its leaf is the only node of that name in the list the
   * path leads to, whatever was filed there before.
   */
  lemma {:induction false} LastWriterWins(list: seq<Node>, item: Item, path: seq<string>)
    requires UniqueNames(list) && NonEmptySegments(path)
    ensures var d := Descend(Insert(list, item, path), path);
      d.Some? && forall n :: n in d.value && n.name == item.name ==> n == NewNode(item, "")
  {
    InsertReachesLeaf(list, item, path);
    InsertKeepsUnique(list, item, path);
    DescendUnique(Insert(list, item, path), path);
    LastIsOnlyOfItsName(Descend(Insert(list, item, path), path).value);
  }

  /** In a list with unique names, the last node is the only one with its name. */
  lemma LastIsOnlyOfItsName(d: seq<Node>)
    requires UniqueNames(d) && |d| >= 1
    ensures forall n :: n in d && n.name == d[|d| - 1].name ==> n == d[|d| - 1]
  {
    forall n | n in d && n.name == d[|d| - 1].name ensures n == d[|d| - 1] {
      var k :| 0 <= k < |d| && d[k] == n;
    }
  }

  lemma {:induction false} DescendUnique(list: seq<Node>, path: seq<string>)
    requires UniqueNames(list)
    ensures Descend(list, path).Some? ==> UniqueNames(Descend(list, path).value)
    decreases |path|
  {
    if path != [] {
      match FindByName(list, path[0])
      case None =>
      case Some(i) => DescendUnique(list[i].children, path[1..]);
    }
  }

  /** Filing keeps a tree with unique names, so a whole items sweep does. */
  lemma {:induction false} AddAllKeepsUnique(roots: seq<Node>, items: seq<Item>)
    requires UniqueNames(roots)
    requires forall i :: 0 <= i < |items| ==> NonEmptySegments(PathOf(items[i]))
    ensures UniqueNames(AddAll(roots, items))
  {
    if items != [] {
      AddAllKeepsUnique(roots, items[..|items| - 1]);
      InsertKeepsUnique(AddAll(roots, items[..|items| - 1]), items[|items| - 1], PathOf(items[|items| - 1]));
    }
  }

  /** No item of the list has an empty category. */
  predicate PathsNonEmpty(items: seq<Item>) {
    forall i :: 0 <= i < |items| ==> NonEmptySegments(PathOf(items[i]))
  }

  /** Filing every contributor's items keeps a tree with unique names when no category is empty. */
  lemma {:induction false} ItemsSweepKeepsUnique(ids: seq<string>, env: MenuEnv, s: MenuState)
    requires UniqueNames(s.roots)
    requires forall id, t :: PathsNonEmpty(env.items(id, t))
    ensures UniqueNames(ItemsSweep(ids, env, s).roots)
  {
    if ids != [] {
      var before := ItemsSweep(ids[..|ids| - 1], env, s);
      ItemsSweepKeepsUnique(ids[..|ids| - 1], env, s);
      AddAllKeepsUnique(before.roots, env.items(ids[|ids| - 1], before.trace));
    }
  }

  /**
   * An empty category is read as "no name" when its node is created, so the
   * node takes the item's name and can duplicate a sibling: filing `x` under
   * [""] next to an existing `x` yields two root nodes named `x`.
   */
  lemma EmptySegmentDuplicatesName(x: Node, item: Item)
    requires x.name == item.name && x.name != ""
    ensures var r := Insert([x], item, [""]);
      |r| == 2 && r[0].name == item.name && r[1].name == item.name && !UniqueNames(r)
  {
    var r := Insert([x], item, [""]);
    assert FindByName([x], "") == None;
    assert r == [x, NewNode(item, "").(children := Insert([], item, []))];
  }
}
