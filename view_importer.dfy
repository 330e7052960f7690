/**
 * The .ui view importer (UIViewImporter): the XML element tree of a view is
 * flattened into the asset's node list in pre-order. Each node records its
 * element type, its position, its parent's position and its children's
 * positions; the four attribute importers (name, class, material,
 * model-property) claim their attributes and every other attribute becomes a
 * node property. Properties whose field is an image or an asset reference
 * also add that path to the group entry's images or to the asset's
 * referenced assets.
 *
 * The element registry (UIElementManager.TryGetElement) and the field
 * reflection (UIElementManager.GetField) are given as maps. A loaded texture,
 * material or asset is modelled by the path it is loaded from.
 */
module ViewImporter {
  import opened Bytes
  import opened Strings

  datatype Attribute = Attribute(name: string, value: string)

  /** An XML node: namespace URI, local name, attributes and child nodes, in document order. */
  datatype XmlElement = XmlElement(namespaceUri: string, localName: string, attributes: seq<Attribute>, childNodes: seq<XmlElement>)

  datatype Property = Property(name: string, value: string)

  /** UIViewAsset.Node; None stands for a field the import leaves null. */
  datatype Node = Node(elementType: nat, name: Option<string>, classes: Option<seq<string>>, parentIndex: int, index: nat,
                       modelPropertyBinding: Option<string>, properties: seq<Property>, material: Option<string>,
                       childrenIndices: Option<seq<nat>>)

  /** The GroupElement attribute on a field's type: absent, None or Image. */
  datatype GroupElement = NoGroupAttribute | GroupNone | GroupImage

  /** What reflection reports about the element field an attribute names: its group kind and its UIUnityObjectAsset type, if any. */
  datatype Field = Field(group: GroupElement, assetType: Option<string>)

  /** The exceptions an import can raise: an unregistered element, or a field reflection does not find. */
  datatype Error = UnknownElement(name: string) | UnknownField(name: string)

  datatype Result<T> = Success(value: T) | Failure(error: Error)

  /** The element name: the local name, qualified by the namespace URI and a '.' when the URI is not blank. */
  function ElementName(x: XmlElement): string
  {
    if IsNullOrWhiteSpace(Some(x.namespaceUri)) then x.localName else x.namespaceUri + "." + x.localName
  }

  // ---------------------------------------------------------------------------
  // The attribute importers
  // ---------------------------------------------------------------------------

  datatype Importer = NameImporter | ClassImporter | MaterialImporter | ModelPropertyImporter

  /** The importers in the order they are tried. */
  const AttributeImporters: seq<Importer> := [NameImporter, ClassImporter, MaterialImporter, ModelPropertyImporter]

  function AttributeName(i: Importer): string
  {
    match i
    case NameImporter => "name"
    case ClassImporter => "class"
    case MaterialImporter => "material"
    case ModelPropertyImporter => "model-property"
  }

  /** Invariant-culture case folding, for the ASCII letters. */
  function Fold(c: char): char
  {
    if 'A' <= c <= 'Z' then (c as int + 32) as char else c
  }

  /** string.Equals(a, b, InvariantCultureIgnoreCase) over ASCII. */
  predicate EqualsIgnoreCase(a: string, b: string)
  {
    |a| == |b| && forall k :: 0 <= k < |a| ==> Fold(a[k]) == Fold(b[k])
  }

  predicate ShouldImport(i: Importer, a: Attribute)
  {
    EqualsIgnoreCase(AttributeName(i), a.name)
  }

  /** The first importer of the list that claims the attribute. */
  function FirstImporter(a: Attribute, importers: seq<Importer>): Option<Importer>
  {
    if importers == [] then None
    else if ShouldImport(importers[0], a) then Some(importers[0])
    else FirstImporter(a, importers[1..])
  }

  function ImporterFor(a: Attribute): Option<Importer>
  {
    FirstImporter(a, AttributeImporters)
  }

  /** The importer names fold to four different strings, so no attribute is claimed by two importers. */
  lemma ImportersExclusive(i: Importer, j: Importer, a: Attribute)
    requires ShouldImport(i, a) && ShouldImport(j, a)
    ensures i == j
  {
  }

  lemma FirstImporterClaims(a: Attribute, importers: seq<Importer>)
    ensures FirstImporter(a, importers).Some? ==> ShouldImport(FirstImporter(a, importers).value, a)
    ensures FirstImporter(a, importers).None? <==> forall k :: 0 <= k < |importers| ==> !ShouldImport(importers[k], a)
  {
  }

  /** An attribute is handled by exactly the importer that claims it, and by none when no importer name matches it. */
  lemma {:induction false} Dispatch(a: Attribute, i: Importer)
    ensures ImporterFor(a) == Some(i) <==> ShouldImport(i, a)
  {
    FirstImporterClaims(a, AttributeImporters);
    if ShouldImport(i, a) {
      var k := if i.NameImporter? then 0 else if i.ClassImporter? then 1 else if i.MaterialImporter? then 2 else 3;
      assert AttributeImporters[k] == i;
      ImportersExclusive(ImporterFor(a).value, i, a);
    }
  }

  /** The foreach over the importers, leaving at the first that claims the attribute. */
  method FindImporter(a: Attribute) returns (r: Option<Importer>)
    ensures r == ImporterFor(a)
  {
    var k := 0;
    while k < |AttributeImporters|
      invariant 0 <= k <= |AttributeImporters|
      invariant FirstImporter(a, AttributeImporters[k..]) == ImporterFor(a)
    {
      var importer := AttributeImporters[k];
      if ShouldImport(importer, a) {
        return Some(importer);
      }
      assert AttributeImporters[k..][1..] == AttributeImporters[k + 1..];
      k := k + 1;
    }
    return None;
  }

  /** What an importer does to the node: name, classes split on ' ', material path, or model-property binding. */
  function Import(i: Importer, a: Attribute, n: Node): Node
  {
    match i
    case NameImporter => n.(name := Some(a.value))
    case ClassImporter => n.(classes := Some(Split(a.value, ' ')))
    case MaterialImporter => n.(material := Some(a.value))
    case ModelPropertyImporter => n.(modelPropertyBinding := Some(a.value))
  }

  /** The class list joined back with ' ' is the attribute value. */
  lemma ClassesJoin(a: Attribute, n: Node)
    ensures Join(Import(ClassImporter, a, n).classes.value, ' ') == a.value
  {
    SplitJoin(a.value, ' ');
  }

  // ---------------------------------------------------------------------------
  // One node's attributes
  // ---------------------------------------------------------------------------

  /** The state the attribute loop builds: the node, its property list, and what it appended to the images and referenced assets. */
  datatype Scan = Scan(node: Node, properties: seq<Property>, images: seq<string>, assets: seq<string>)

  /** One attribute: claimed by an importer, or recorded as a property (after its field is looked up). */
  function Step(s: Scan, a: Attribute, fields: map<string, Field>): Result<Scan>
  {
    match ImporterFor(a)
    case Some(i) => Success(s.(node := Import(i, a, s.node)))
    case None =>
      if a.name !in fields then Failure(UnknownField(a.name))
      else
        var f := fields[a.name];
        Success(Scan(s.node, s.properties + [Property(a.name, a.value)],
                     s.images + (if f.group == GroupImage then [a.value] else []),
                     s.assets + (if f.assetType.Some? then [a.value] else [])))
  }

  /** The loop over the first k attributes. */
  function ScanAttributes(attrs: seq<Attribute>, k: nat, start: Node, fields: map<string, Field>): Result<Scan>
    requires k <= |attrs|
  {
    if k == 0 then Success(Scan(start, [], [], []))
    else
      match ScanAttributes(attrs, k - 1, start, fields)
      case Failure(e) => Failure(e)
      case Success(s) => Step(s, attrs[k - 1], fields)
  }

  /** The attributes no importer claims, as properties, in order. */
  function Unclaimed(attrs: seq<Attribute>): seq<Property>
  {
    if attrs == [] then []
    else Unclaimed(attrs[..|attrs| - 1]) + (if ImporterFor(attrs[|attrs| - 1]).None? then [Property(attrs[|attrs| - 1].name, attrs[|attrs| - 1].value)] else [])
  }

  /**
   * The property list holds exactly the unclaimed attributes, in document
   * order, and a failure is the first unclaimed attribute whose field is unknown.
   */
  lemma {:induction false} ScanProperties(attrs: seq<Attribute>, k: nat, start: Node, fields: map<string, Field>)
    requires k <= |attrs|
    ensures ScanAttributes(attrs, k, start, fields).Success? ==> ScanAttributes(attrs, k, start, fields).value.properties == Unclaimed(attrs[..k])
    ensures ScanAttributes(attrs, k, start, fields).Success? <==>
            forall j :: 0 <= j < k && ImporterFor(attrs[j]).None? ==> attrs[j].name in fields
  {
    if k > 0 {
      ScanProperties(attrs, k - 1, start, fields);
      assert attrs[..k][..k - 1] == attrs[..k - 1];
    }
  }

  /** The import keeps the element type, the index and the parent index it starts from. */
  lemma {:induction false} ScanKeepsPlace(attrs: seq<Attribute>, k: nat, start: Node, fields: map<string, Field>)
    requires k <= |attrs| && ScanAttributes(attrs, k, start, fields).Success?
    ensures var n := ScanAttributes(attrs, k, start, fields).value.node;
            n.elementType == start.elementType && n.index == start.index && n.parentIndex == start.parentIndex
            && n.childrenIndices == start.childrenIndices
  {
    if k > 0 {
      ScanKeepsPlace(attrs, k - 1, start, fields);
    }
  }

  /** Once the loop fails it stays failed with the same error. */
  lemma {:induction false} ScanFailureStays(attrs: seq<Attribute>, j: nat, k: nat, start: Node, fields: map<string, Field>)
    requires j <= k <= |attrs| && ScanAttributes(attrs, j, start, fields).Failure?
    ensures ScanAttributes(attrs, k, start, fields) == ScanAttributes(attrs, j, start, fields)
    decreases k
  {
    if k > j {
      ScanFailureStays(attrs, j, k - 1, start, fields);
    }
  }

  // ---------------------------------------------------------------------------
  // The pre-order flattening
  // ---------------------------------------------------------------------------

  /** What importing a subtree appends: its nodes, its images and its referenced assets. */
  datatype Flat = Flat(nodes: seq<Node>, images: seq<string>, assets: seq<string>)

  /** What importing the first children of a node appends, and the indices the children got. */
  datatype Children = Children(flat: Flat, roots: seq<nat>)

  function NewNode(elementType: nat, parentIndex: int, index: nat): Node
  {
    Node(elementType, None, None, parentIndex, index, None, [], None, None)
  }

  function Kids(n: Node): seq<nat>
  {
    if n.childrenIndices.None? then [] else n.childrenIndices.value
  }

  /** CreateNode on x with the given parent index, when the list already holds `base` nodes. */
  function Flatten(x: XmlElement, parentIndex: int, base: nat, elements: map<string, nat>, fields: map<string, Field>): Result<Flat>
    decreases x, 1, 0
  {
    var name := ElementName(x);
    if name !in elements then Failure(UnknownElement(name))
    else
      match ScanAttributes(x.attributes, |x.attributes|, NewNode(elements[name], parentIndex, base), fields)
      case Failure(e) => Failure(e)
      case Success(s) =>
        match FlattenChildren(x, |x.childNodes|, base, base + 1, elements, fields)
        case Failure(e) => Failure(e)
        case Success(c) => Success(Flat([Attach(x, s, c)] + c.flat.nodes, s.images + c.flat.images, s.assets + c.flat.assets))
  }

  /** The node CreateNode appends for x: the scanned node with its properties and, when x has child nodes, their indices. */
  function Attach(x: XmlElement, s: Scan, c: Children): Node
  {
    var node := s.node.(properties := s.properties);
    if x.childNodes != [] then node.(childrenIndices := Some(c.roots)) else node
  }

  /** The first k children of x, imported one after another as children of node `parentIndex`, starting at position `first`. */
  function FlattenChildren(x: XmlElement, k: nat, parentIndex: nat, first: nat, elements: map<string, nat>, fields: map<string, Field>): Result<Children>
    requires k <= |x.childNodes|
    decreases x, 0, k
  {
    if k == 0 then Success(Children(Flat([], [], []), []))
    else
      match FlattenChildren(x, k - 1, parentIndex, first, elements, fields)
      case Failure(e) => Failure(e)
      case Success(c) =>
        var at := first + |c.flat.nodes|;
        match Flatten(x.childNodes[k - 1], parentIndex, at, elements, fields)
        case Failure(e) => Failure(e)
        case Success(t) => Success(Children(Flat(c.flat.nodes + t.nodes, c.flat.images + t.images, c.flat.assets + t.assets), c.roots + [at]))
  }

  /** One more child: its subtree is appended, and its index is where it starts. */
  lemma ChildrenStep(x: XmlElement, k: nat, parentIndex: nat, first: nat, elements: map<string, nat>, fields: map<string, Field>, c: Children)
    requires 0 < k <= |x.childNodes| && FlattenChildren(x, k - 1, parentIndex, first, elements, fields) == Success(c)
    ensures var f := Flatten(x.childNodes[k - 1], parentIndex, first + |c.flat.nodes|, elements, fields);
            FlattenChildren(x, k, parentIndex, first, elements, fields)
            == if f.Failure? then Failure(f.error)
               else Success(Children(Flat(c.flat.nodes + f.value.nodes, c.flat.images + f.value.images, c.flat.assets + f.value.assets),
                                     c.roots + [first + |c.flat.nodes|]))
  {
  }

  /** ChildrenStep when the child imports: the loop's result grows by the child's subtree and index. */
  lemma ChildSucceeds(x: XmlElement, k: nat, parentIndex: nat, first: nat, at: nat, elements: map<string, nat>, fields: map<string, Field>, b: Children, t: Flat)
    requires 0 < k <= |x.childNodes| && FlattenChildren(x, k - 1, parentIndex, first, elements, fields) == Success(b)
    requires at == first + |b.flat.nodes| && Flatten(x.childNodes[k - 1], parentIndex, at, elements, fields) == Success(t)
    ensures FlattenChildren(x, k, parentIndex, first, elements, fields)
            == Success(Children(Flat(b.flat.nodes + t.nodes, b.flat.images + t.images, b.flat.assets + t.assets), b.roots + [at]))
  {
  }

  lemma {:induction false} ChildrenFailureStays(x: XmlElement, j: nat, k: nat, parentIndex: nat, first: nat, elements: map<string, nat>, fields: map<string, Field>)
    requires j <= k <= |x.childNodes| && FlattenChildren(x, j, parentIndex, first, elements, fields).Failure?
    ensures FlattenChildren(x, k, parentIndex, first, elements, fields) == FlattenChildren(x, j, parentIndex, first, elements, fields)
    decreases k
  {
    if k > j {
      ChildrenFailureStays(x, j, k - 1, parentIndex, first, elements, fields);
    }
  }

  // ---------------------------------------------------------------------------
  // The shape of a flattened forest
  // ---------------------------------------------------------------------------

  /** Node j of the list sits at position base + j and says so. */
  predicate Indexed(nodes: seq<Node>, base: nat)
  {
    forall j :: 0 <= j < |nodes| ==> nodes[j].index == base + j
  }

  /** Each node's parent is `parent` or a node earlier in the list. */
  predicate ParentsEarlier(nodes: seq<Node>, base: nat, parent: int)
  {
    forall j :: 0 <= j < |nodes| ==> nodes[j].parentIndex == parent || base <= nodes[j].parentIndex < base + j
  }

  predicate Ascending(s: seq<nat>)
  {
    forall i, j :: 0 <= i < j < |s| ==> s[i] < s[j]
  }

  /** Node j's children are listed in ascending (document) order, each a later node whose parent is node j. */
  predicate LinkedAt(nodes: seq<Node>, base: nat, j: nat)
    requires j < |nodes|
  {
    Ascending(Kids(nodes[j])) &&
    forall c :: c in Kids(nodes[j]) ==> base + j < c < base + |nodes| && nodes[c - base].parentIndex == base + j
  }

  predicate ChildrenLinked(nodes: seq<Node>, base: nat)
  {
    forall j :: 0 <= j < |nodes| ==> LinkedAt(nodes, base, j)
  }

  /** Node j is listed among its parent's children when its parent is in the list. */
  predicate ListedAt(nodes: seq<Node>, base: nat, j: nat)
    requires j < |nodes|
  {
    base <= nodes[j].parentIndex < base + |nodes| ==> base + j in Kids(nodes[nodes[j].parentIndex - base])
  }

  predicate ParentsList(nodes: seq<Node>, base: nat)
  {
    forall j :: 0 <= j < |nodes| ==> ListedAt(nodes, base, j)
  }

  /** The roots are, in ascending order, exactly the nodes whose parent is `parent`. */
  predicate RootsLinked(nodes: seq<Node>, base: nat, parent: int, roots: seq<nat>)
  {
    Ascending(roots)
    && (forall r :: r in roots ==> base <= r < base + |nodes| && nodes[r - base].parentIndex == parent)
    && (forall j :: 0 <= j < |nodes| && nodes[j].parentIndex == parent ==> base + j in roots)
  }

  /**
   * The nodes base.. form a forest hanging from `parent` (a position before
   * base) with the given roots: indices, parent indices and children indices
   * agree in both directions.
   */
  predicate Forest(nodes: seq<Node>, base: nat, parent: int, roots: seq<nat>)
  {
    parent < base && Indexed(nodes, base) && ParentsEarlier(nodes, base, parent) && ChildrenLinked(nodes, base)
    && ParentsList(nodes, base) && RootsLinked(nodes, base, parent, roots)
  }

  /** A node's links inside a sub-list placed at offset `off` of a longer list still hold there. */
  lemma LinkedInside(big: seq<Node>, small: seq<Node>, off: nat, base: nat, j: nat)
    requires off + |small| <= |big| && big[off..off + |small|] == small && j < |small|
    requires LinkedAt(small, base + off, j)
    ensures LinkedAt(big, base, off + j)
  {
    assert big[off + j] == small[j];
    var kids := Kids(small[j]);
    forall c | c in kids
      ensures base + off + j < c < base + |big| && big[c - base].parentIndex == base + off + j
    {
      assert big[c - base] == small[c - (base + off)];
    }
  }

  /** The same for a node's listing by its parent, when the parent is before the whole list or inside the sub-list. */
  lemma ListedInside(big: seq<Node>, small: seq<Node>, off: nat, base: nat, j: nat)
    requires off + |small| <= |big| && big[off..off + |small|] == small && j < |small|
    requires ListedAt(small, base + off, j)
    requires small[j].parentIndex < base || base + off <= small[j].parentIndex < base + off + |small|
    ensures ListedAt(big, base, off + j)
  {
    assert big[off + j] == small[j];
    var p := small[j].parentIndex;
    if base <= p {
      assert big[p - base] == small[p - (base + off)];
    }
  }

  lemma ConcatIndexed(a: seq<Node>, b: seq<Node>, base: nat)
    requires Indexed(a, base) && Indexed(b, base + |a|)
    ensures Indexed(a + b, base)
  {
    forall j | 0 <= j < |a + b|
      ensures (a + b)[j].index == base + j
    {
      if j >= |a| {
        assert (a + b)[j] == b[j - |a|];
      }
    }
  }

  lemma ConcatParents(a: seq<Node>, b: seq<Node>, base: nat, parent: int)
    requires ParentsEarlier(a, base, parent) && ParentsEarlier(b, base + |a|, parent)
    ensures ParentsEarlier(a + b, base, parent)
  {
    forall j | 0 <= j < |a + b|
      ensures (a + b)[j].parentIndex == parent || base <= (a + b)[j].parentIndex < base + j
    {
      if j >= |a| {
        assert (a + b)[j] == b[j - |a|];
      }
    }
  }

  lemma ConcatChildren(a: seq<Node>, b: seq<Node>, base: nat)
    requires ChildrenLinked(a, base) && ChildrenLinked(b, base + |a|)
    ensures ChildrenLinked(a + b, base)
  {
    var ab := a + b;
    assert ab[0..|a|] == a;
    assert ab[|a|..|a| + |b|] == b;
    forall j | 0 <= j < |ab|
      ensures LinkedAt(ab, base, j)
    {
      if j < |a| {
        LinkedInside(ab, a, 0, base, j);
      } else {
        LinkedInside(ab, b, |a|, base, j - |a|);
      }
    }
  }

  lemma ConcatParentsList(a: seq<Node>, b: seq<Node>, base: nat, parent: int)
    requires parent < base
    requires ParentsEarlier(a, base, parent) && ParentsEarlier(b, base + |a|, parent)
    requires ParentsList(a, base) && ParentsList(b, base + |a|)
    ensures ParentsList(a + b, base)
  {
    var ab := a + b;
    assert ab[0..|a|] == a;
    assert ab[|a|..|a| + |b|] == b;
    forall j | 0 <= j < |ab|
      ensures ListedAt(ab, base, j)
    {
      if j < |a| {
        ListedInside(ab, a, 0, base, j);
      } else {
        ListedInside(ab, b, |a|, base, j - |a|);
      }
    }
  }

  lemma ConcatRoots(a: seq<Node>, b: seq<Node>, base: nat, parent: int, ra: seq<nat>, rb: seq<nat>)
    requires RootsLinked(a, base, parent, ra) && RootsLinked(b, base + |a|, parent, rb)
    ensures RootsLinked(a + b, base, parent, ra + rb)
  {
    var ab := a + b;
    forall r | r in ra + rb
      ensures base <= r < base + |ab| && ab[r - base].parentIndex == parent
    {
      if r in ra {
        assert ab[r - base] == a[r - base];
      } else {
        assert ab[r - base] == b[r - (base + |a|)];
      }
    }
    forall j | 0 <= j < |ab| && ab[j].parentIndex == parent
      ensures base + j in ra + rb
    {
      if j < |a| {
        assert ab[j] == a[j];
      } else {
        assert ab[j] == b[j - |a|];
      }
    }
    forall i, j | 0 <= i < j < |ra + rb|
      ensures (ra + rb)[i] < (ra + rb)[j]
    {
      if i < |ra| && j >= |ra| {
        assert ra[i] in ra && rb[j - |ra|] in rb;
      }
    }
  }

  /** Two forests placed one after the other form one forest. */
  lemma ForestConcat(a: seq<Node>, b: seq<Node>, base: nat, mid: nat, parent: int, ra: seq<nat>, rb: seq<nat>)
    requires mid == base + |a|
    requires Forest(a, base, parent, ra) && Forest(b, mid, parent, rb)
    ensures Forest(a + b, base, parent, ra + rb)
  {
    ConcatIndexed(a, b, base);
    ConcatParents(a, b, base, parent);
    ConcatChildren(a, b, base);
    ConcatParentsList(a, b, base, parent);
    ConcatRoots(a, b, base, parent, ra, rb);
  }

  lemma TreeChildren(n: Node, rest: seq<Node>, base: nat, parent: int)
    requires parent < base && n.index == base && Forest(rest, base + 1, base, Kids(n))
    ensures ChildrenLinked([n] + rest, base)
  {
    var t := [n] + rest;
    assert t[1..1 + |rest|] == rest;
    forall j | 0 <= j < |t|
      ensures LinkedAt(t, base, j)
    {
      if j == 0 {
        RootLinked(n, rest, base);
      } else {
        LinkedInside(t, rest, 1, base, j - 1);
      }
    }
  }

  /** The root's children are the roots of the forest after it. */
  lemma RootLinked(n: Node, rest: seq<Node>, base: nat)
    requires RootsLinked(rest, base + 1, base, Kids(n))
    ensures LinkedAt([n] + rest, base, 0)
  {
    var t := [n] + rest;
    assert t[0] == n;
    var kids := Kids(n);
    forall c | c in kids
      ensures base < c < base + |t| && t[c - base].parentIndex == base
    {
      assert t[c - base] == rest[c - (base + 1)];
    }
  }

  lemma TreeParentsList(n: Node, rest: seq<Node>, base: nat, parent: int)
    requires parent < base && n.index == base && n.parentIndex == parent && Forest(rest, base + 1, base, Kids(n))
    ensures ParentsList([n] + rest, base)
  {
    var t := [n] + rest;
    assert t[1..1 + |rest|] == rest;
    forall j | 0 <= j < |t|
      ensures ListedAt(t, base, j)
    {
      if j > 0 {
        assert t[j] == rest[j - 1];
        if rest[j - 1].parentIndex == base {
          assert base + 1 + (j - 1) in Kids(n);
        } else {
          ListedInside(t, rest, 1, base, j - 1);
        }
      }
    }
  }

  /** A node followed by the forest of its children is a tree. */
  lemma ForestTree(n: Node, rest: seq<Node>, base: nat, parent: int)
    requires parent < base && n.index == base && n.parentIndex == parent && Forest(rest, base + 1, base, Kids(n))
    ensures Forest([n] + rest, base, parent, [base])
  {
    var t := [n] + rest;
    forall j | 0 <= j < |t|
      ensures t[j].index == base + j && (t[j].parentIndex == parent || base <= t[j].parentIndex < base + j)
    {
      if j > 0 {
        assert t[j] == rest[j - 1];
      }
    }
    TreeChildren(n, rest, base, parent);
    TreeParentsList(n, rest, base, parent);
    forall j | 0 < j < |t|
      ensures t[j].parentIndex != parent
    {
      assert t[j] == rest[j - 1];
    }
  }

  /**
   * Importing a subtree appends it in pre-order as a tree: its root first,
   * at position base with the caller's parent index, and every node's index,
   * parent index and children indices consistent with each other; the root
   * lists one child index per child node, and none (null) when it has none.
   */
  lemma {:induction false} FlattenTree(x: XmlElement, parentIndex: int, base: nat, elements: map<string, nat>, fields: map<string, Field>)
    returns (f: Flat)
    requires parentIndex < base && Flatten(x, parentIndex, base, elements, fields).Success?
    ensures Flatten(x, parentIndex, base, elements, fields) == Success(f)
    ensures |f.nodes| >= 1 && f.nodes[0].parentIndex == parentIndex && Forest(f.nodes, base, parentIndex, [base])
    ensures |Kids(f.nodes[0])| == |x.childNodes| && (f.nodes[0].childrenIndices.None? <==> x.childNodes == [])
    decreases x, 1, 0
  {
    var name := ElementName(x);
    var start := NewNode(elements[name], parentIndex, base);
    var s := ScanAttributes(x.attributes, |x.attributes|, start, fields).value;
    ScanKeepsPlace(x.attributes, |x.attributes|, start, fields);
    var c := ChildrenForest(x, |x.childNodes|, base, base + 1, elements, fields);
    var node' := Attach(x, s, c);
    assert Kids(node') == c.roots by {
      if x.childNodes == [] {
        assert c.roots == [];
      }
    }
    FlattenParts(x, parentIndex, base, elements, fields, s, c);
    f := Flat([node'] + c.flat.nodes, s.images + c.flat.images, s.assets + c.flat.assets);
    ForestTree(node', c.flat.nodes, base, parentIndex);
  }

  /** The first k children, imported one after another, form a forest under `parentIndex` whose roots are their k indices. */
  lemma {:induction false} ChildrenForest(x: XmlElement, k: nat, parentIndex: nat, first: nat, elements: map<string, nat>, fields: map<string, Field>)
    returns (c: Children)
    requires k <= |x.childNodes| && parentIndex < first && FlattenChildren(x, k, parentIndex, first, elements, fields).Success?
    ensures FlattenChildren(x, k, parentIndex, first, elements, fields) == Success(c)
    ensures Forest(c.flat.nodes, first, parentIndex, c.roots) && |c.roots| == k
    decreases x, 0, k
  {
    if k == 0 {
      c := Children(Flat([], [], []), []);
    } else {
      var b := ChildrenForest(x, k - 1, parentIndex, first, elements, fields);
      var at := first + |b.flat.nodes|;
      var t := FlattenTree(x.childNodes[k - 1], parentIndex, at, elements, fields);
      ChildSucceeds(x, k, parentIndex, first, at, elements, fields, b, t);
      c := Children(Flat(b.flat.nodes + t.nodes, b.flat.images + t.images, b.flat.assets + t.assets), b.roots + [at]);
      ForestConcat(b.flat.nodes, t.nodes, first, at, parentIndex, b.roots, [at]);
    }
  }

  /** An element that is not registered makes the import fail, naming the element. */
  lemma UnknownElementFails(x: XmlElement, parentIndex: int, base: nat, elements: map<string, nat>, fields: map<string, Field>)
    requires ElementName(x) !in elements
    ensures Flatten(x, parentIndex, base, elements, fields) == Failure(UnknownElement(ElementName(x)))
  {
  }

  // ---------------------------------------------------------------------------
  // The importer itself
  // ---------------------------------------------------------------------------

  /** The view asset under construction: its node list and the assets its properties reference. */
  class ViewAsset {
    var nodes: seq<Node>
    var referencedAssets: seq<string>

    constructor ()
      ensures nodes == [] && referencedAssets == []
    {
      nodes := [];
      referencedAssets := [];
    }
  }

  /** The group entry (UIGroup.GroupEntry) collecting the view's images. */
  class GroupEntry {
    var images: seq<string>

    constructor ()
      ensures images == []
    {
      images := [];
    }
  }

  /** The attribute loop of CreateNode: importers claim attributes, the rest become properties. */
  method ImportAttributes(x: XmlElement, start: Node, fields: map<string, Field>, asset: ViewAsset, entry: GroupEntry) returns (r: Result<(Node, seq<Property>)>)
    modifies asset, entry
    ensures var s := ScanAttributes(x.attributes, |x.attributes|, start, fields);
            (r.Success? <==> s.Success?) && (r.Failure? ==> r.error == s.error)
            && (r.Success? ==> r.value == (s.value.node, s.value.properties)
                               && entry.images == old(entry.images) + s.value.images
                               && asset.referencedAssets == old(asset.referencedAssets) + s.value.assets)
    ensures asset.nodes == old(asset.nodes)
  {
    var node := start;
    var properties: seq<Property> := [];
    for i := 0 to |x.attributes|
      invariant asset.nodes == old(asset.nodes)
      invariant var s := ScanAttributes(x.attributes, i, start, fields);
                s.Success? && s.value.node == node && s.value.properties == properties
                && entry.images == old(entry.images) + s.value.images
                && asset.referencedAssets == old(asset.referencedAssets) + s.value.assets
    {
      var attribute := x.attributes[i];
      var importer := FindImporter(attribute);
      if importer.Some? {
        node := Import(importer.value, attribute, node);
      } else {
        if attribute.name !in fields {
          ScanFailureStays(x.attributes, i + 1, |x.attributes|, start, fields);
          return Failure(UnknownField(attribute.name));
        }
        var field := fields[attribute.name];
        if field.group == GroupImage {
          entry.images := entry.images + [attribute.value];
        }
        properties := properties + [Property(attribute.name, attribute.value)];
        if field.assetType.Some? {
          asset.referencedAssets := asset.referencedAssets + [attribute.value];
        }
      }
    }
    return Success((node, properties));
  }

  /** Flatten, assembled from its parts. */
  lemma FlattenParts(x: XmlElement, parentIndex: int, base: nat, elements: map<string, nat>, fields: map<string, Field>, s: Scan, c: Children)
    requires ElementName(x) in elements
    requires ScanAttributes(x.attributes, |x.attributes|, NewNode(elements[ElementName(x)], parentIndex, base), fields) == Success(s)
    requires FlattenChildren(x, |x.childNodes|, base, base + 1, elements, fields) == Success(c)
    ensures Flatten(x, parentIndex, base, elements, fields) == Success(Flat([Attach(x, s, c)] + c.flat.nodes, s.images + c.flat.images, s.assets + c.flat.assets))
  {
  }

  /**
   * CreateNode: appends x's subtree to the asset in pre-order and returns the
   * index x got, which is the number of nodes the asset held before.
   */
  method CreateNode(elements: map<string, nat>, fields: map<string, Field>, x: XmlElement, asset: ViewAsset, entry: GroupEntry, parentIndex: int)
    returns (r: Result<nat>)
    modifies asset, entry
    ensures var f := Flatten(x, parentIndex, old(|asset.nodes|), elements, fields);
            (r.Success? <==> f.Success?) && (r.Failure? ==> r.error == f.error)
            && (r.Success? ==> r.value == old(|asset.nodes|)
                               && asset.nodes == old(asset.nodes) + f.value.nodes
                               && entry.images == old(entry.images) + f.value.images
                               && asset.referencedAssets == old(asset.referencedAssets) + f.value.assets)
    decreases x, 1, 0
  {
    var name := ElementName(x);
    if name !in elements {
      return Failure(UnknownElement(name));
    }
    var index := |asset.nodes|;
    ghost var start := NewNode(elements[name], parentIndex, index);
    var scanned := ImportAttributes(x, NewNode(elements[name], parentIndex, index), fields, asset, entry);
    if scanned.Failure? {
      return Failure(scanned.error);
    }
    ghost var s := ScanAttributes(x.attributes, |x.attributes|, start, fields).value;
    ghost var images0 := entry.images;
    ghost var assets0 := asset.referencedAssets;
    var node := scanned.value.0.(properties := scanned.value.1);
    asset.nodes := asset.nodes + [node];
    ghost var c := Children(Flat([], [], []), []);
    if |x.childNodes| > 0 {
      var children := CreateChildren(elements, fields, x, index, asset, entry);
      if children.Failure? {
        return Failure(children.error);
      }
      c := FlattenChildren(x, |x.childNodes|, index, index + 1, elements, fields).value;
      asset.nodes := asset.nodes[index := node.(childrenIndices := Some(children.value))];
      Replaced(old(asset.nodes), node, Attach(x, s, c), c.flat.nodes);
    } else {
      assert asset.nodes == old(asset.nodes) + ([Attach(x, s, c)] + c.flat.nodes);
    }
    Assoc(old(entry.images), s.images, c.flat.images);
    Assoc(old(asset.referencedAssets), s.assets, c.flat.assets);
    FlattenParts(x, parentIndex, index, elements, fields, s, c);
    return Success(index);
  }

  /** The child loop of CreateNode: each child node is imported in order as a child of node `index`, the last node of the asset. */
  method CreateChildren(elements: map<string, nat>, fields: map<string, Field>, x: XmlElement, index: nat, asset: ViewAsset, entry: GroupEntry)
    returns (r: Result<seq<nat>>)
    requires |asset.nodes| == index + 1
    modifies asset, entry
    ensures var c := FlattenChildren(x, |x.childNodes|, index, index + 1, elements, fields);
            (r.Success? <==> c.Success?) && (r.Failure? ==> r.error == c.error)
            && (r.Success? ==> r.value == c.value.roots
                               && asset.nodes == old(asset.nodes) + c.value.flat.nodes
                               && entry.images == old(entry.images) + c.value.flat.images
                               && asset.referencedAssets == old(asset.referencedAssets) + c.value.flat.assets)
    decreases x, 0, 1
  {
    var children: seq<nat> := [];
    ghost var c := Children(Flat([], [], []), []);
    for i := 0 to |x.childNodes|
      invariant FlattenChildren(x, i, index, index + 1, elements, fields) == Success(c)
      invariant c.roots == children
      invariant asset.nodes == old(asset.nodes) + c.flat.nodes
      invariant entry.images == old(entry.images) + c.flat.images
      invariant asset.referencedAssets == old(asset.referencedAssets) + c.flat.assets
    {
      ghost var t;
      var child;
      child, t := AppendChild(elements, fields, x, i, index, asset, entry, c);
      if child.Failure? {
        ChildrenFailureStays(x, i + 1, |x.childNodes|, index, index + 1, elements, fields);
        return Failure(child.error);
      }
      Assoc(old(asset.nodes), c.flat.nodes, t.nodes);
      Assoc(old(entry.images), c.flat.images, t.images);
      Assoc(old(asset.referencedAssets), c.flat.assets, t.assets);
      c := Children(Flat(c.flat.nodes + t.nodes, c.flat.images + t.images, c.flat.assets + t.assets), c.roots + [child.value]);
      children := children + [child.value];
    }
    return Success(children);
  }

  /** One iteration of the child loop: child i is imported after the subtrees of the children before it. */
  method AppendChild(elements: map<string, nat>, fields: map<string, Field>, x: XmlElement, i: nat, index: nat, asset: ViewAsset, entry: GroupEntry, ghost c: Children)
    returns (child: Result<nat>, ghost t: Flat)
    requires i < |x.childNodes| && FlattenChildren(x, i, index, index + 1, elements, fields) == Success(c)
    requires |asset.nodes| == index + 1 + |c.flat.nodes|
    modifies asset, entry
    ensures child.Failure? ==> FlattenChildren(x, i + 1, index, index + 1, elements, fields) == Failure(child.error)
    ensures child.Success? ==>
              child.value == index + 1 + |c.flat.nodes|
              && FlattenChildren(x, i + 1, index, index + 1, elements, fields)
                 == Success(Children(Flat(c.flat.nodes + t.nodes, c.flat.images + t.images, c.flat.assets + t.assets), c.roots + [child.value]))
              && asset.nodes == old(asset.nodes) + t.nodes
              && entry.images == old(entry.images) + t.images
              && asset.referencedAssets == old(asset.referencedAssets) + t.assets
    decreases x, 0, 0
  {
    child := CreateNode(elements, fields, x.childNodes[i], asset, entry, index);
    ChildrenStep(x, i + 1, index, index + 1, elements, fields, c);
    t := if child.Success? then Flatten(x.childNodes[i], index, index + 1 + |c.flat.nodes|, elements, fields).value else Flat([], [], []);
  }

  lemma Replaced<T>(a: seq<T>, n: T, n': T, rest: seq<T>)
    ensures (a + [n] + rest)[|a| := n'] == a + ([n'] + rest)
  {
  }

  lemma Assoc<T>(a: seq<T>, b: seq<T>, c: seq<T>)
    ensures a + (b + c) == (a + b) + c
  {
  }

  /** The view asset's nodes after an import: ImportXmlIntoAsset without the group bookkeeping. */
  datatype View = View(nodes: seq<Node>, referencedAssets: seq<string>, images: seq<string>)

  /** LINQ Distinct: the first occurrence of each element, in order. */
  function Distinct(s: seq<string>): (r: seq<string>)
  {
    if s == [] then []
    else
      var d := Distinct(s[..|s| - 1]);
      if s[|s| - 1] in d then d else d + [s[|s| - 1]]
  }

  /** Distinct keeps every element, drops every repetition, and keeps order among the survivors. */
  lemma {:induction false} DistinctSound(s: seq<string>)
    ensures forall a :: a in Distinct(s) <==> a in s
    ensures forall i, j :: 0 <= i < j < |Distinct(s)| ==> Distinct(s)[i] != Distinct(s)[j]
  {
    if s != [] {
      DistinctSound(s[..|s| - 1]);
      assert s == s[..|s| - 1] + [s[|s| - 1]];
    }
  }

  /** The position of the first occurrence of a in s. */
  function FirstIndex(s: seq<string>, a: string): (r: nat)
    requires a in s
    ensures r < |s| && s[r] == a && forall k :: 0 <= k < r ==> s[k] != a
  {
    if s[0] == a then 0 else 1 + FirstIndex(s[1..], a)
  }

  lemma {:induction false} FirstIndexAppend(t: seq<string>, x: string, a: string)
    requires a in t
    ensures FirstIndex(t + [x], a) == FirstIndex(t, a)
  {
    var i, j := FirstIndex(t + [x], a), FirstIndex(t, a);
    assert (t + [x])[j] == a;
    assert t[i] == a;
  }

  /** Distinct keeps LINQ's order: the survivors stand in the order of their first occurrences. */
  lemma {:induction false} DistinctOrder(s: seq<string>)
    ensures forall a :: a in Distinct(s) ==> a in s
    ensures forall i, j :: 0 <= i < j < |Distinct(s)| ==> FirstIndex(s, Distinct(s)[i]) < FirstIndex(s, Distinct(s)[j])
  {
    DistinctSound(s);
    if s != [] {
      var t, x := s[..|s| - 1], s[|s| - 1];
      assert s == t + [x];
      DistinctOrder(t);
      DistinctSound(t);
      var d := Distinct(t);
      forall i, j | 0 <= i < j < |Distinct(s)|
        ensures FirstIndex(s, Distinct(s)[i]) < FirstIndex(s, Distinct(s)[j])
      {
        FirstIndexAppend(t, x, d[i]);
        if j < |d| {
          FirstIndexAppend(t, x, d[j]);
        } else {
          assert Distinct(s)[j] == x && x !in t;
          assert FirstIndex(s, x) == |t|;
        }
      }
    }
  }

  /**
   * ImportXmlIntoAsset: a fresh asset receives the root's tree (with parent
   * index -1), or nothing when the document has no root element; the
   * referenced assets are then made distinct.
   */
  method ImportXml(root: Option<XmlElement>, elements: map<string, nat>, fields: map<string, Field>) returns (r: Result<View>)
    ensures root.None? ==> r == Success(View([], [], []))
    ensures root.Some? ==>
              var f := Flatten(root.value, -1, 0, elements, fields);
              (r.Success? <==> f.Success?) && (r.Failure? ==> r.error == f.error)
              && (r.Success? ==> r.value == View(f.value.nodes, Distinct(f.value.assets), f.value.images))
  {
    var asset := new ViewAsset();
    var entry := new GroupEntry();
    if root.Some? {
      var created := CreateNode(elements, fields, root.value, asset, entry, -1);
      if created.Failure? {
        return Failure(created.error);
      }
      ghost var f := Flatten(root.value, -1, 0, elements, fields).value;
      assert asset.nodes == f.nodes && asset.referencedAssets == f.assets && entry.images == f.images;
    }
    asset.referencedAssets := Distinct(asset.referencedAssets);
    return Success(View(asset.nodes, asset.referencedAssets, entry.images));
  }

  /** An imported view is one tree: node 0 is the root with parent -1, and all links agree. */
  lemma ImportedTree(root: XmlElement, elements: map<string, nat>, fields: map<string, Field>)
    requires Flatten(root, -1, 0, elements, fields).Success?
    ensures var t := Flatten(root, -1, 0, elements, fields).value.nodes;
            |t| >= 1 && t[0].parentIndex == -1 && Forest(t, 0, -1, [0])
  {
    var f := FlattenTree(root, -1, 0, elements, fields);
  }
}
