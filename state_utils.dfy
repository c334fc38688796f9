/**
 * Helpers of src/actions/remoteUI/stateUtils.ts: the search of a details
 * tree by item id, and the guards that newNode and applyChanges apply before
 * they ask the RAML parser for a stub node.
 */
module StateUtils {
  import opened Wrappers

  /** A node of a details tree: its id, an opaque value and its children. */
  datatype DetailsItem = DetailsItem(id: string, value: nat, children: ChildList)

  /** getChildren() of a node: null or a list. */
  datatype ChildList = NoChildren | Children(items: seq<DetailsItem>)

  function Kids(n: DetailsItem): (r: seq<DetailsItem>)
    ensures forall i :: 0 <= i < |r| ==> r[i] < n
  {
    match n.children
    case Children(cs) => cs
    case NoChildren => []
  }

  /**
   * getItemById: the root if it has the id; otherwise the first child subtree,
   * in order, that yields a match.
   */
  function ItemById(root: DetailsItem, id: string): Option<DetailsItem>
    decreases root, 1
  {
    if root.id == id then Some(root)
    else if root.children.NoChildren? || root.children.items == [] then None
    else FirstInChildren(root, 0, id)
  }

  /** The loop of getItemById over the children from index i on. */
  function FirstInChildren(root: DetailsItem, i: nat, id: string): Option<DetailsItem>
    requires i <= |Kids(root)|
    decreases root, 0, |Kids(root)| - i
  {
    if i == |Kids(root)| then None
    else
      match ItemById(Kids(root)[i], id)
      case Some(found) => Some(found)
      case None => FirstInChildren(root, i + 1, id)
  }

  /** Every node of the tree, parents before children, children in order. */
  function PreOrder(root: DetailsItem): seq<DetailsItem>
    decreases root, 1
  {
    [root] + PreOrderFrom(root, 0)
  }

  /** The pre-order of the children from index i on. */
  function PreOrderFrom(root: DetailsItem, i: nat): seq<DetailsItem>
    requires i <= |Kids(root)|
    decreases root, 0, |Kids(root)| - i
  {
    if i == |Kids(root)| then [] else PreOrder(Kids(root)[i]) + PreOrderFrom(root, i + 1)
  }

  /** The first node of a list with the given id. */
  function FirstWithId(nodes: seq<DetailsItem>, id: string): (r: Option<DetailsItem>)
    ensures r.Some? ==> r.value.id == id && r.value in nodes
    ensures r.None? <==> forall k :: 0 <= k < |nodes| ==> nodes[k].id != id
  {
    if nodes == [] then None
    else if nodes[0].id == id then Some(nodes[0])
    else FirstWithId(nodes[1..], id)
  }

  /** The node FirstWithId picks comes before every other node with that id. */
  lemma {:induction false} FirstWithIdIsEarliest(nodes: seq<DetailsItem>, id: string)
    ensures var r := FirstWithId(nodes, id);
      r.Some? ==> exists k :: 0 <= k < |nodes| && nodes[k] == r.value && forall j :: 0 <= j < k ==> nodes[j].id != id
  {
    if nodes != [] && nodes[0].id != id {
      FirstWithIdIsEarliest(nodes[1..], id);
      var r := FirstWithId(nodes[1..], id);
      if r.Some? {
        var k :| 0 <= k < |nodes[1..]| && nodes[1..][k] == r.value && forall j :: 0 <= j < k ==> nodes[1..][j].id != id;
        assert nodes[k + 1] == r.value;
        assert forall j :: 0 <= j < k + 1 ==> nodes[j].id != id by {
          forall j | 0 <= j < k + 1 ensures nodes[j].id != id {
            if j > 0 { assert nodes[j] == nodes[1..][j - 1]; }
          }
        }
      }
    }
  }

  lemma {:induction false} FirstWithIdAppend(a: seq<DetailsItem>, b: seq<DetailsItem>, id: string)
    ensures FirstWithId(a + b, id) == if FirstWithId(a, id).Some? then FirstWithId(a, id) else FirstWithId(b, id)
  {
    if a != [] {
      assert (a + b)[0] == a[0];
      assert (a + b)[1..] == a[1..] + b;
      FirstWithIdAppend(a[1..], b, id);
    } else {
      assert a + b == b;
    }
  }

  /** getItemById returns the first node in pre-order that has the id. */
  lemma {:induction false} ItemByIdIsFirstInPreOrder(root: DetailsItem, id: string)
    ensures ItemById(root, id) == FirstWithId(PreOrder(root), id)
    decreases root, 1
  {
    FirstWithIdAppend([root], PreOrderFrom(root, 0), id);
    if root.id != id {
      assert FirstWithId([root], id).None?;
      if root.children.NoChildren? || root.children.items == [] {
        assert PreOrderFrom(root, 0) == [];
      } else {
        ChildrenFirstInPreOrder(root, 0, id);
      }
    }
  }

  lemma {:induction false} ChildrenFirstInPreOrder(root: DetailsItem, i: nat, id: string)
    requires i <= |Kids(root)|
    ensures FirstInChildren(root, i, id) == FirstWithId(PreOrderFrom(root, i), id)
    decreases root, 0, |Kids(root)| - i
  {
    if i < |Kids(root)| {
      ItemByIdIsFirstInPreOrder(Kids(root)[i], id);
      ChildrenFirstInPreOrder(root, i + 1, id);
      FirstWithIdAppend(PreOrder(Kids(root)[i]), PreOrderFrom(root, i + 1), id);
    }
  }

  /**
   * A result of getItemById has the requested id and is a node of the tree;
   * the result is null exactly when no node of the tree has the id.
   */
  lemma ItemByIdFinds(root: DetailsItem, id: string)
    ensures ItemById(root, id).Some? ==> ItemById(root, id).value.id == id && ItemById(root, id).value in PreOrder(root)
    ensures ItemById(root, id).None? <==> forall n :: n in PreOrder(root) ==> n.id != id
    ensures var nodes := PreOrder(root); ItemById(root, id).Some? ==>
      exists k :: 0 <= k < |nodes| && nodes[k] == ItemById(root, id).value && forall j :: 0 <= j < k ==> nodes[j].id != id
  {
    ItemByIdIsFirstInPreOrder(root, id);
    FirstWithIdIsEarliest(PreOrder(root), id);
  }

  /** getItemById answers with the root when the root has the id, whatever lies below it. */
  lemma RootMatchWins(root: DetailsItem, id: string)
    requires root.id == id
    ensures ItemById(root, id) == Some(root)
  {
  }

  // ---------------------------------------------------------------------------
  // The guards of newNode and applyChanges
  // ---------------------------------------------------------------------------

  /** What is asked of parser.stubs.createStub: the parent node, the property and the key. */
  datatype StubRequest = StubRequest(parent: nat, property: string, key: string)

  /** The state newNode returns: `{isParentNull: true}`, or the stub to build the details tree from and the title. */
  datatype NodeState = ParentMissing | Initial(stub: StubRequest, title: string)

  /** The key the stub is created under: a "body" property always gets "application/json". */
  function StubKey(property: string, key: string): (k: string)
    ensures property == "body" ==> k == "application/json"
    ensures property != "body" ==> k == key
  {
    if property == "body" then "application/json" else key
  }

  /** newNode: a null parent gives `{isParentNull: true}` and nothing else happens. */
  function NewNode(parent: Option<nat>, title: string, property: string, key: string): (r: NodeState)
    ensures r.ParentMissing? <==> parent.None?
    ensures r.Initial? ==> r.stub == StubRequest(parent.value, property, StubKey(property, key)) && r.title == title
  {
    if parent.None? then ParentMissing
    else Initial(StubRequest(parent.value, property, StubKey(property, key)), title)
  }

  /** What applyChanges does: `{isParentNull: true}`, or the stub it adds to the parent. */
  datatype ApplyOutcome = ParentNull | StubAdded(stub: StubRequest)

  /** applyChanges: a null parent gives `{isParentNull: true}`; otherwise the stub is made under the same key rule. */
  function ApplyChanges(parent: Option<nat>, title: string, property: string, key: string): (r: ApplyOutcome)
    ensures r.ParentNull? <==> parent.None?
    ensures r.StubAdded? ==> r.stub == StubRequest(parent.value, property, StubKey(property, key))
  {
    if parent.None? then ParentNull else StubAdded(StubRequest(parent.value, property, StubKey(property, key)))
  }

  /** Both entry points create a "body" stub under "application/json", whatever key they are given. */
  lemma BodyKeyForced(parent: nat, title: string, key: string)
    ensures NewNode(Some(parent), title, "body", key).stub.key == "application/json"
    ensures ApplyChanges(Some(parent), title, "body", key).stub.key == "application/json"
    ensures NewNode(Some(parent), title, "body", key).stub == ApplyChanges(Some(parent), title, "body", key).stub
  {
  }
}
