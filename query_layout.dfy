/**
 * The packed form of a query: GetQuerySize's sizes, the bytes
 * AllocateQueryData writes, and UIQuery.Enumerator's walk over them.
 *
 * A buffer is a Header {long totalSize; int nodeCount} (16 bytes) and then,
 * per node, a NodeHeader {int totalSize; byte operation} (8 bytes), the
 * element name and the name, each as a ContentHeader {int totalSize}
 * (4 bytes) and its bytes, and a class and a pseudo-class section, each a
 * ClassHeader {int totalSize; byte count} (8 bytes) and one ContentHeader
 * and its bytes per class. Struct padding is written as zero bytes.
 */
module QueryLayout {
  import opened Bytes
  import opened Query
  import opened QueryNodes

  const HeaderSize := 16
  const NodeHeaderSize := 8
  const ContentHeaderSize := 4
  const ClassHeaderSize := 8

  // ---------------------------------------------------------------- sizes

  /**
   * A token's length as a count of bytes. The tokens CreateQueryData
   * builds never have a negative length, so this is the length itself.
   */
  function Len(t: Token): nat
  {
    if t.length > 0 then t.length else 0
  }

  /** The bytes of the query string a token covers; a byte past the end reads as 0. */
  function TokenBytes(data: seq<byte>, t: Token): (r: seq<byte>)
    ensures |r| == Len(t)
  {
    seq(Len(t), k => ByteAt(data, t.offset + k))
  }

  function ByteAt(s: seq<byte>, i: int): byte
  {
    if 0 <= i < |s| then s[i] else 0
  }

  /** The bytes of a section of classes: a ContentHeader and the bytes for each. */
  function ItemsSize(ts: seq<Token>): nat
  {
    if ts == [] then 0 else ItemsSize(ts[..|ts| - 1]) + ContentHeaderSize + Len(ts[|ts| - 1])
  }

  /** GetQuerySize's nodeSize for one node. */
  function NodeSize(n: QueryNode, cls: seq<Token>, pcls: seq<Token>): nat
  {
    NodeHeaderSize + ContentHeaderSize + Len(n.elementNameToken) + ContentHeaderSize + Len(n.nameToken)
      + ClassHeaderSize + ClassHeaderSize + ItemsSize(cls) + ItemsSize(pcls)
  }

  /** The class and pseudo-class tokens of a node, looked up by its index. */
  function ClassesOf(m: map<int, seq<Token>>, n: QueryNode): seq<Token>
  {
    Values(m, n.nodeIndex)
  }

  function SizeOf(nodes: seq<QueryNode>, classes: map<int, seq<Token>>, pseudoClasses: map<int, seq<Token>>, i: nat): nat
    requires i < |nodes|
  {
    NodeSize(nodes[i], ClassesOf(classes, nodes[i]), ClassesOf(pseudoClasses, nodes[i]))
  }

  /** The sum of the node sizes. */
  function NodesSize(nodes: seq<QueryNode>, classes: map<int, seq<Token>>, pseudoClasses: map<int, seq<Token>>): nat
  {
    if nodes == [] then 0
    else NodesSize(nodes[..|nodes| - 1], classes, pseudoClasses) + SizeOf(nodes, classes, pseudoClasses, |nodes| - 1)
  }

  /** GetQuerySize's totalSize. */
  function QuerySize(nodes: seq<QueryNode>, classes: map<int, seq<Token>>, pseudoClasses: map<int, seq<Token>>): nat
  {
    HeaderSize + NodesSize(nodes, classes, pseudoClasses)
  }

  /** Where node i starts: after the header and the nodes before it. */
  function NodeStart(nodes: seq<QueryNode>, classes: map<int, seq<Token>>, pseudoClasses: map<int, seq<Token>>, i: nat): nat
    requires i <= |nodes|
  {
    HeaderSize + NodesSize(nodes[..i], classes, pseudoClasses)
  }

  /** The sizes of a prefix add up, and never pass the whole. */
  lemma {:induction false} NodesSizePrefix(nodes: seq<QueryNode>, classes: map<int, seq<Token>>, pseudoClasses: map<int, seq<Token>>, i: nat)
    requires i < |nodes|
    ensures NodesSize(nodes[..i + 1], classes, pseudoClasses) == NodesSize(nodes[..i], classes, pseudoClasses) + SizeOf(nodes, classes, pseudoClasses, i)
    ensures NodesSize(nodes[..i + 1], classes, pseudoClasses) <= NodesSize(nodes, classes, pseudoClasses)
    decreases |nodes| - i
  {
    var p := nodes[..i + 1];
    assert p[..|p| - 1] == nodes[..i];
    assert SizeOf(p, classes, pseudoClasses, i) == SizeOf(nodes, classes, pseudoClasses, i);
    if i + 1 < |nodes| {
      NodesSizePrefix(nodes, classes, pseudoClasses, i + 1);
    } else {
      assert p == nodes;
    }
  }

  /**
   * GetQuerySize: the size of every node and of its two class sections,
   * stored at the node's index, and the total of the header and every node.
   */
  method GetQuerySize(nodes: seq<QueryNode>, classes: map<int, seq<Token>>, pseudoClasses: map<int, seq<Token>>)
    returns (sizes: seq<(int, int, int)>, totalSize: int)
    requires forall i :: 0 <= i < |nodes| ==> nodes[i].nodeIndex == i
    ensures |sizes| == |nodes|
    ensures forall i :: 0 <= i < |nodes| ==>
      sizes[i] == (SizeOf(nodes, classes, pseudoClasses, i),
                   ItemsSize(ClassesOf(classes, nodes[i])), ItemsSize(ClassesOf(pseudoClasses, nodes[i])))
    ensures totalSize == QuerySize(nodes, classes, pseudoClasses)
  {
    var size := HeaderSize;
    sizes := seq(|nodes|, _ => (0, 0, 0));
    for i := 0 to |nodes|
      invariant |sizes| == |nodes|
      invariant size == HeaderSize + NodesSize(nodes[..i], classes, pseudoClasses)
      invariant forall j :: 0 <= j < i ==>
        sizes[j] == (SizeOf(nodes, classes, pseudoClasses, j),
                     ItemsSize(ClassesOf(classes, nodes[j])), ItemsSize(ClassesOf(pseudoClasses, nodes[j])))
    {
      var node := nodes[i];
      var nodeSize := NodeHeaderSize + ContentHeaderSize + Len(node.elementNameToken)
        + ContentHeaderSize + Len(node.nameToken) + ClassHeaderSize + ClassHeaderSize;
      var classSectionSize := SectionSize(Values(classes, node.nodeIndex));
      nodeSize := nodeSize + classSectionSize;
      var pseudoClassSectionSize := SectionSize(Values(pseudoClasses, node.nodeIndex));
      nodeSize := nodeSize + pseudoClassSectionSize;
      size := size + nodeSize;
      sizes := sizes[node.nodeIndex := (nodeSize, classSectionSize, pseudoClassSectionSize)];
      NodesSizePrefix(nodes, classes, pseudoClasses, i);
    }
    assert nodes[..|nodes|] == nodes;
    totalSize := size;
  }

  /** The do-while over one key of a NativeMultiHashMap, adding up a section. */
  method SectionSize(ts: seq<Token>) returns (size: int)
    ensures size == ItemsSize(ts)
  {
    size := 0;
    for j := 0 to |ts|
      invariant size == ItemsSize(ts[..j])
    {
      size := size + ContentHeaderSize + Len(ts[j]);
      assert ts[..j + 1][..j] == ts[..j];
    }
    assert ts[..|ts|] == ts;
  }

  // ---------------------------------------------------------------- bytes

  /** A ContentHeader and the bytes it describes. */
  function Item(data: seq<byte>, t: Token): (r: seq<byte>)
    ensures |r| == ContentHeaderSize + Len(t)
  {
    Int32Bytes(Len(t)) + TokenBytes(data, t)
  }

  function Items(data: seq<byte>, ts: seq<Token>): (r: seq<byte>)
    ensures |r| == ItemsSize(ts)
  {
    if ts == [] then [] else Items(data, ts[..|ts| - 1]) + Item(data, ts[|ts| - 1])
  }

  /** A ClassHeader (the section's size and its count as a byte) and the items. */
  function ClassSection(data: seq<byte>, ts: seq<Token>): (r: seq<byte>)
    ensures |r| == ClassHeaderSize + ItemsSize(ts)
  {
    Int32Bytes(ItemsSize(ts)) + [ByteOf(|ts| % 256)] + Zeros(3) + Items(data, ts)
  }

  /** A NodeHeader: the node's size less the header, and the operation's byte. */
  function NodeHeaderBytes(n: QueryNode, cls: seq<Token>, pcls: seq<Token>): (r: seq<byte>)
    ensures |r| == NodeHeaderSize
  {
    Int32Bytes(NodeSize(n, cls, pcls) - NodeHeaderSize) + [Code(n.operation)] + Zeros(3)
  }

  /** The bytes of one node, in the order AllocateQueryData writes them. */
  function NodeBytes(data: seq<byte>, n: QueryNode, cls: seq<Token>, pcls: seq<Token>): (r: seq<byte>)
    ensures |r| == NodeSize(n, cls, pcls)
  {
    NodeHeaderBytes(n, cls, pcls) + Item(data, n.elementNameToken) + Item(data, n.nameToken)
      + ClassSection(data, cls) + ClassSection(data, pcls)
  }

  function NodeBytesAt(data: seq<byte>, nodes: seq<QueryNode>, classes: map<int, seq<Token>>, pseudoClasses: map<int, seq<Token>>, i: nat): (r: seq<byte>)
    requires i < |nodes|
    ensures |r| == SizeOf(nodes, classes, pseudoClasses, i)
  {
    NodeBytes(data, nodes[i], ClassesOf(classes, nodes[i]), ClassesOf(pseudoClasses, nodes[i]))
  }

  function NodesBytes(data: seq<byte>, nodes: seq<QueryNode>, classes: map<int, seq<Token>>, pseudoClasses: map<int, seq<Token>>): (r: seq<byte>)
    ensures |r| == NodesSize(nodes, classes, pseudoClasses)
  {
    if nodes == [] then []
    else NodesBytes(data, nodes[..|nodes| - 1], classes, pseudoClasses) + NodeBytesAt(data, nodes, classes, pseudoClasses, |nodes| - 1)
  }

  /** The Header: totalSize (the size less the header, as a long) and nodeCount. */
  function HeaderBytes(total: int, count: int): (r: seq<byte>)
    ensures |r| == HeaderSize
  {
    LE((total - HeaderSize) % TwoTo64, 8) + Int32Bytes(count) + Zeros(4)
  }

  /** The whole buffer AllocateQueryData fills. */
  function Layout(data: seq<byte>, nodes: seq<QueryNode>, classes: map<int, seq<Token>>, pseudoClasses: map<int, seq<Token>>): (r: seq<byte>)
    ensures |r| == QuerySize(nodes, classes, pseudoClasses)
  {
    HeaderBytes(QuerySize(nodes, classes, pseudoClasses), |nodes|) + NodesBytes(data, nodes, classes, pseudoClasses)
  }

  // ---------------------------------------------------------------- writing

  /**
   * AllocateQueryData: a buffer of GetQuerySize's total, the header, then
   * each node's record one after the other.
   */
  method AllocateQueryData(data: seq<byte>, nodes: seq<QueryNode>, classes: map<int, seq<Token>>, pseudoClasses: map<int, seq<Token>>)
    returns (queryData: array<byte>)
    requires forall i :: 0 <= i < |nodes| ==> nodes[i].nodeIndex == i
    ensures queryData[..] == Layout(data, nodes, classes, pseudoClasses)
  {
    var nodeSizes, queryDataSize := GetQuerySize(nodes, classes, pseudoClasses);
    queryData := new byte[queryDataSize];
    var offset := Put(queryData, 0, HeaderBytes(queryDataSize, |nodes|));
    WriteNodes(queryData, data, nodes, classes, pseudoClasses, nodeSizes);
  }

  /** AllocateQueryData's foreach loop: every node's record after the header, in order. */
  method WriteNodes(queryData: array<byte>, data: seq<byte>, nodes: seq<QueryNode>, classes: map<int, seq<Token>>, pseudoClasses: map<int, seq<Token>>,
                    nodeSizes: seq<(int, int, int)>)
    requires forall i :: 0 <= i < |nodes| ==> nodes[i].nodeIndex == i
    requires |nodeSizes| == |nodes|
    requires forall i :: 0 <= i < |nodes| ==>
      nodeSizes[i] == (SizeOf(nodes, classes, pseudoClasses, i),
                       ItemsSize(ClassesOf(classes, nodes[i])), ItemsSize(ClassesOf(pseudoClasses, nodes[i])))
    requires queryData.Length == QuerySize(nodes, classes, pseudoClasses)
    modifies queryData
    ensures queryData[..] == old(queryData[..HeaderSize]) + NodesBytes(data, nodes, classes, pseudoClasses)
  {
    ghost var header := queryData[..HeaderSize];
    var offset := HeaderSize;
    for i := 0 to |nodes|
      invariant offset == NodeStart(nodes, classes, pseudoClasses, i) <= queryData.Length
      invariant queryData[..offset] == header + NodesBytes(data, nodes[..i], classes, pseudoClasses)
    {
      var node := nodes[i];
      assert node.nodeIndex == i;
      offset := WriteNodeAt(queryData, data, nodes, classes, pseudoClasses, i, offset, nodeSizes[node.nodeIndex], header);
    }
    assert nodes[..|nodes|] == nodes;
    assert queryData[..] == queryData[..offset];
  }

  /** One turn of the foreach loop: node i's record after those of the nodes before it. */
  method WriteNodeAt(queryData: array<byte>, data: seq<byte>, nodes: seq<QueryNode>, classes: map<int, seq<Token>>, pseudoClasses: map<int, seq<Token>>,
                     i: nat, offset: nat, size: (int, int, int), ghost header: seq<byte>)
    returns (next: nat)
    requires i < |nodes| && queryData.Length == QuerySize(nodes, classes, pseudoClasses)
    requires size == (SizeOf(nodes, classes, pseudoClasses, i), ItemsSize(ClassesOf(classes, nodes[i])), ItemsSize(ClassesOf(pseudoClasses, nodes[i])))
    requires offset == NodeStart(nodes, classes, pseudoClasses, i) <= queryData.Length
    requires queryData[..offset] == header + NodesBytes(data, nodes[..i], classes, pseudoClasses)
    modifies queryData
    ensures next == NodeStart(nodes, classes, pseudoClasses, i + 1) <= queryData.Length
    ensures queryData[..next] == header + NodesBytes(data, nodes[..i + 1], classes, pseudoClasses)
    ensures queryData[next..] == old(queryData[next..])
  {
    var node := nodes[i];
    ghost var before := NodesBytes(data, nodes[..i], classes, pseudoClasses);
    ghost var record := NodeBytesAt(data, nodes, classes, pseudoClasses, i);
    NodesSizePrefix(nodes, classes, pseudoClasses, i);
    next := WriteNode(queryData, offset, data, node, ClassesOf(classes, node), ClassesOf(pseudoClasses, node), size);
    assert queryData[..next] == header + before + record;
    NodesBytesSnoc(data, nodes, classes, pseudoClasses, i);
    Concat2(header, before, record);
  }

  /** One node's record, written at offset; the bytes before it are kept. */
  method WriteNode(queryData: array<byte>, offset: nat, data: seq<byte>, node: QueryNode, cls: seq<Token>, pcls: seq<Token>, size: (int, int, int))
    returns (next: nat)
    requires size == (NodeSize(node, cls, pcls), ItemsSize(cls), ItemsSize(pcls))
    requires offset + NodeSize(node, cls, pcls) <= queryData.Length
    modifies queryData
    ensures next == offset + NodeSize(node, cls, pcls)
    ensures queryData[..next] == old(queryData[..offset]) + NodeBytes(data, node, cls, pcls)
    ensures queryData[next..] == old(queryData[next..])
  {
    ghost var p := queryData[..offset];
    ghost var end := offset + NodeSize(node, cls, pcls);
    var header := Int32Bytes(size.0 - NodeHeaderSize) + [Code(node.operation)] + Zeros(3);
    assert header == NodeHeaderBytes(node, cls, pcls);
    ghost var s := queryData[..];
    next := Put(queryData, offset, header);
    SuffixFrom(queryData[..], s, next, end);
    ghost var w := header;
    assert queryData[..next] == p + w;
    var elementName := Item(data, node.elementNameToken);
    s := queryData[..];
    next := Put(queryData, next, elementName);
    SuffixFrom(queryData[..], s, next, end);
    Concat2(p, w, elementName);
    w := w + elementName;
    var name := Item(data, node.nameToken);
    s := queryData[..];
    next := Put(queryData, next, name);
    SuffixFrom(queryData[..], s, next, end);
    Concat2(p, w, name);
    w := w + name;
    s := queryData[..];
    next := WriteSection(queryData, next, data, cls, size.1);
    SuffixFrom(queryData[..], s, next, end);
    Concat2(p, w, ClassSection(data, cls));
    w := w + ClassSection(data, cls);
    next := WriteSection(queryData, next, data, pcls, size.2);
    Concat2(p, w, ClassSection(data, pcls));
  }

  /** Two buffers that agree from m on agree from any later n on. */
  lemma SuffixFrom(a: seq<byte>, b: seq<byte>, m: nat, n: nat)
    requires m <= n <= |a| == |b| && a[m..] == b[m..]
    ensures a[n..] == b[n..]
  {
    assert a[n..] == a[m..][n - m..];
    assert b[n..] == b[m..][n - m..];
  }

  /** A ClassHeader with the section's size and count, then the section's items. */
  method WriteSection(queryData: array<byte>, offset: nat, data: seq<byte>, ts: seq<Token>, sectionSize: int) returns (next: nat)
    requires sectionSize == ItemsSize(ts)
    requires offset + ClassHeaderSize + ItemsSize(ts) <= queryData.Length
    modifies queryData
    ensures next == offset + ClassHeaderSize + ItemsSize(ts)
    ensures queryData[..next] == old(queryData[..offset]) + ClassSection(data, ts)
    ensures queryData[next..] == old(queryData[next..])
  {
    ghost var p := queryData[..offset];
    var classHeader := Int32Bytes(sectionSize) + [ByteOf(|ts| % 256)] + Zeros(3);
    next := Put(queryData, offset, classHeader);
    next := WriteItems(queryData, next, data, ts);
    Concat2(p, classHeader, Items(data, ts));
  }

  /** The bytes of the first i + 1 nodes are those of the first i and then node i's record. */
  lemma NodesBytesSnoc(data: seq<byte>, nodes: seq<QueryNode>, classes: map<int, seq<Token>>, pseudoClasses: map<int, seq<Token>>, i: nat)
    requires i < |nodes|
    ensures NodesBytes(data, nodes[..i + 1], classes, pseudoClasses)
      == NodesBytes(data, nodes[..i], classes, pseudoClasses) + NodeBytesAt(data, nodes, classes, pseudoClasses, i)
  {
    var p := nodes[..i + 1];
    assert p[..|p| - 1] == nodes[..i];
    assert p[i] == nodes[i];
  }

  /** Two parts appended one after the other. */
  lemma Concat2(p: seq<byte>, a: seq<byte>, b: seq<byte>)
    ensures p + a + b == p + (a + b)
  {
  }

  /** The do-while over one key's tokens: a ContentHeader and the token's bytes for each. */
  method WriteItems(queryData: array<byte>, offset: nat, data: seq<byte>, ts: seq<Token>) returns (next: nat)
    requires offset + ItemsSize(ts) <= queryData.Length
    modifies queryData
    ensures next == offset + ItemsSize(ts)
    ensures queryData[..next] == old(queryData[..offset]) + Items(data, ts)
    ensures queryData[next..] == old(queryData[next..])
  {
    next := offset;
    for j := 0 to |ts|
      invariant ItemsSize(ts[..j]) <= ItemsSize(ts)
      invariant next == offset + ItemsSize(ts[..j])
      invariant queryData[..next] == old(queryData[..offset]) + Items(data, ts[..j])
      invariant queryData[offset + ItemsSize(ts)..] == old(queryData[offset + ItemsSize(ts)..])
    {
      ItemsPrefix(ts, j);
      assert ts[..j + 1][..j] == ts[..j];
      ghost var before := queryData[..next];
      next := Put(queryData, next, Item(data, ts[j]));
      Concat2(old(queryData[..offset]), Items(data, ts[..j]), Item(data, ts[j]));
    }
    assert ts[..|ts|] == ts;
  }

  lemma {:induction false} ItemsPrefix(ts: seq<Token>, j: nat)
    requires j < |ts|
    ensures ItemsSize(ts[..j + 1]) <= ItemsSize(ts)
    decreases |ts| - j
  {
    if j + 1 < |ts| {
      ItemsPrefix(ts, j + 1);
      assert ts[..j + 2][..j + 1] == ts[..j + 1];
    } else {
      assert ts[..j + 1] == ts;
    }
  }

  /** The bytes of nodes[..m] begin the bytes of all the nodes. */
  lemma {:induction false} NodesBytesPrefix(data: seq<byte>, nodes: seq<QueryNode>, classes: map<int, seq<Token>>, pseudoClasses: map<int, seq<Token>>, m: nat)
    requires m <= |nodes|
    ensures NodesBytes(data, nodes[..m], classes, pseudoClasses) <= NodesBytes(data, nodes, classes, pseudoClasses)
    decreases |nodes|
  {
    if m < |nodes| {
      var shorter := nodes[..|nodes| - 1];
      assert shorter[..m] == nodes[..m];
      NodesBytesPrefix(data, shorter, classes, pseudoClasses, m);
    } else {
      assert nodes[..m] == nodes;
    }
  }

  /** Node i's record sits in the buffer at NodeStart(i). */
  lemma NodeInLayout(data: seq<byte>, nodes: seq<QueryNode>, classes: map<int, seq<Token>>, pseudoClasses: map<int, seq<Token>>, i: nat)
    requires i < |nodes|
    ensures var s := Layout(data, nodes, classes, pseudoClasses);
      var start := NodeStart(nodes, classes, pseudoClasses, i);
      && start + SizeOf(nodes, classes, pseudoClasses, i) <= |s|
      && s[start..start + SizeOf(nodes, classes, pseudoClasses, i)] == NodeBytesAt(data, nodes, classes, pseudoClasses, i)
  {
    var h := HeaderBytes(QuerySize(nodes, classes, pseudoClasses), |nodes|);
    var all := NodesBytes(data, nodes, classes, pseudoClasses);
    var before := NodesBytes(data, nodes[..i], classes, pseudoClasses);
    var record := NodeBytesAt(data, nodes, classes, pseudoClasses, i);
    NodeInNodes(data, nodes, classes, pseudoClasses, i);
    Located(Layout(data, nodes, classes, pseudoClasses), h, all, before, record,
            NodeStart(nodes, classes, pseudoClasses, i), SizeOf(nodes, classes, pseudoClasses, i));
  }

  lemma NodeInNodes(data: seq<byte>, nodes: seq<QueryNode>, classes: map<int, seq<Token>>, pseudoClasses: map<int, seq<Token>>, i: nat)
    requires i < |nodes|
    ensures NodesBytes(data, nodes[..i], classes, pseudoClasses) + NodeBytesAt(data, nodes, classes, pseudoClasses, i)
      <= NodesBytes(data, nodes, classes, pseudoClasses)
  {
    NodesBytesSnoc(data, nodes, classes, pseudoClasses, i);
    NodesBytesPrefix(data, nodes, classes, pseudoClasses, i + 1);
  }

  lemma Located(s: seq<byte>, h: seq<byte>, all: seq<byte>, before: seq<byte>, record: seq<byte>, start: nat, size: nat)
    requires s == h + all && before + record <= all && start == |h| + |before| && size == |record|
    ensures start + size <= |s| && s[start..start + size] == record
  {
    assert all[..|before| + |record|] == before + record;
    assert s[|h| + |before|..|h| + |before| + |record|] == all[|before|..|before| + |record|];
  }

  /** A slice of a slice of s is a slice of s. */
  lemma SubSlice(s: seq<byte>, at: nat, r: seq<byte>, i: nat, j: nat)
    requires at + |r| <= |s| && s[at..at + |r|] == r && i <= j <= |r|
    ensures s[at + i..at + j] == r[i..j]
  {
    forall k | 0 <= k < j - i
      ensures s[at + i..at + j][k] == r[i..j][k]
    {
      assert s[at + i + k] == s[at..at + |r|][i + k];
    }
  }

  /** The two halves of x + y where it sits in b. */
  lemma Split2(b: seq<byte>, at: nat, x: seq<byte>, y: seq<byte>)
    requires at + |x| + |y| <= |b| && b[at..at + |x| + |y|] == x + y
    ensures b[at..at + |x|] == x && b[at + |x|..at + |x| + |y|] == y
  {
    assert b[at..at + |x|] == (x + y)[..|x|];
    assert b[at + |x|..at + |x| + |y|] == (x + y)[|x|..];
  }

  /** The header and the two names are the first three parts of a record. */
  lemma NodeParts(data: seq<byte>, n: QueryNode, cls: seq<Token>, pcls: seq<Token>)
    ensures var b := NodeBytes(data, n, cls, pcls);
      var ei := Item(data, n.elementNameToken);
      var ni := Item(data, n.nameToken);
      && b[..NodeHeaderSize] == NodeHeaderBytes(n, cls, pcls)
      && b[NodeHeaderSize..NodeHeaderSize + |ei|] == ei
      && b[NodeHeaderSize + |ei|..NodeHeaderSize + |ei| + |ni|] == ni
  {
    var h := NodeHeaderBytes(n, cls, pcls);
    var ei := Item(data, n.elementNameToken);
    var ni := Item(data, n.nameToken);
    Parts(NodeBytes(data, n, cls, pcls), h, ei, ni, ClassSection(data, cls), ClassSection(data, pcls));
  }

  lemma Parts(b: seq<byte>, h: seq<byte>, x: seq<byte>, y: seq<byte>, u: seq<byte>, v: seq<byte>)
    requires b == h + x + y + u + v
    ensures b[..|h|] == h && b[|h|..|h| + |x|] == x && b[|h| + |x|..|h| + |x| + |y|] == y
  {
  }

  /** A record starts with the node's size less its header, then the operation's byte. */
  lemma NodeHeaderFields(data: seq<byte>, n: QueryNode, cls: seq<Token>, pcls: seq<Token>)
    ensures var b := NodeBytes(data, n, cls, pcls);
      b[..4] == Int32Bytes(NodeSize(n, cls, pcls) - NodeHeaderSize) && b[4] == Code(n.operation)
  {
    var b := NodeBytes(data, n, cls, pcls);
    NodeParts(data, n, cls, pcls);
    Split2(b, 0, Int32Bytes(NodeSize(n, cls, pcls) - NodeHeaderSize), [Code(n.operation)] + Zeros(3));
  }

  /** Where the element name and the name, with their lengths, sit in a record. */
  lemma NodeFields(data: seq<byte>, n: QueryNode, cls: seq<Token>, pcls: seq<Token>)
    ensures var b := NodeBytes(data, n, cls, pcls);
      var e := Len(n.elementNameToken);
      && b[8..12] == Int32Bytes(e) && b[12..12 + e] == TokenBytes(data, n.elementNameToken)
      && b[12 + e..16 + e] == Int32Bytes(Len(n.nameToken)) && b[16 + e..16 + e + Len(n.nameToken)] == TokenBytes(data, n.nameToken)
  {
    var b := NodeBytes(data, n, cls, pcls);
    var e := Len(n.elementNameToken);
    NodeParts(data, n, cls, pcls);
    Split2(b, 8, Int32Bytes(e), TokenBytes(data, n.elementNameToken));
    Split2(b, 12 + e, Int32Bytes(Len(n.nameToken)), TokenBytes(data, n.nameToken));
  }

  // ---------------------------------------------------------------- the enumerator

  /** A Node.Handle: where a name's bytes start in the buffer, and how many there are. */
  datatype Handle = Handle(value: int, length: int)

  /** The fields of UIQuery.Node that MoveNext fills. */
  datatype Node = Node(element: Handle, name: Handle, operation: byte)

  const NoNodeValue := Node(Handle(0, 0), Handle(0, 0), 0)

  /** The int stored at offset at; bytes outside the buffer read as 0. */
  function ReadInt(s: seq<byte>, at: int): int
  {
    var u := ByteAt(s, at) as int + 0x100 * ByteAt(s, at + 1) as int
      + 0x1_0000 * ByteAt(s, at + 2) as int + 0x100_0000 * ByteAt(s, at + 3) as int;
    if u >= TwoTo31 then u - TwoTo32 else u
  }

  /** MoveNext's step: the header first, then past the current node by its header's size. */
  function Advance(s: seq<byte>, offset: int): int
  {
    if offset == 0 then HeaderSize else offset + ReadInt(s, offset) + NodeHeaderSize
  }

  /**
   * The node MoveNext reads at pos: the element name's length after the
   * NodeHeader (8 bytes), its bytes after that length (at 12), then the
   * name's length and bytes; the operation is the NodeHeader's byte at 4.
   */
  function NodeAt(s: seq<byte>, pos: int): Node
  {
    var elementNameLength := ReadInt(s, pos + 8);
    Node(Handle(pos + 12, elementNameLength),
         Handle(pos + 16 + elementNameLength, ReadInt(s, pos + 12 + elementNameLength)),
         ByteAt(s, pos + 4))
  }

  /** The offset after k calls of MoveNext from a fresh or reset enumerator. */
  function OffsetAfter(s: seq<byte>, k: nat): int
  {
    if k == 0 then 0 else Advance(s, OffsetAfter(s, k - 1))
  }

  /** UIQuery.Enumerator over a query buffer. */
  class Enumerator {
    const data: seq<byte>
    const Count: int
    var offset: int
    var index: int
    var current: Node

    /** Count is the header's nodeCount. */
    constructor(queryData: seq<byte>)
      ensures data == queryData && Count == ReadInt(queryData, 8)
      ensures offset == 0 && index == -1 && current == NoNodeValue
    {
      data := queryData;
      Count := ReadInt(queryData, 8);
      current := NoNodeValue;
      offset := 0;
      index := -1;
    }

    /** Steps to the next node and reads it; true while index is below Count. */
    method MoveNext() returns (more: bool)
      modifies this
      ensures offset == Advance(data, old(offset)) && index == old(index) + 1
      ensures current == NodeAt(data, offset)
      ensures more <==> index < Count
    {
      offset := offset + (if offset == 0 then HeaderSize else ReadInt(data, offset) + NodeHeaderSize);
      index := index + 1;
      var pos := offset;
      var elementNameLength := ReadInt(data, pos + 8);
      var elementName := pos + 12;
      var nameLength := ReadInt(data, pos + 12 + elementNameLength);
      var name := pos + 16 + elementNameLength;
      current := Node(Handle(elementName, elementNameLength), Handle(name, nameLength), ByteAt(data, pos + 4));
      return index < Count;
    }

    method Reset()
      modifies this
      ensures offset == 0 && index == -1 && current == NoNodeValue
    {
      current := NoNodeValue;
      offset := 0;
      index := -1;
    }
  }

  /** Four bytes of the buffer that hold x read back as x, when x fits an int. */
  lemma ReadBack(s: seq<byte>, at: nat, x: int)
    requires at + 4 <= |s| && s[at..at + 4] == Int32Bytes(x) && 0 <= x < TwoTo31
    ensures ReadInt(s, at) == x
  {
    FromLE4(s[at..at + 4]);
    Int32RoundTrip(x);
  }

  lemma FromLE4(b: seq<byte>)
    requires |b| == 4
    ensures FromLE(b) == b[0] as int + 0x100 * b[1] as int + 0x1_0000 * b[2] as int + 0x100_0000 * b[3] as int
  {
    assert b[3..][1..] == [];
    assert FromLE(b[3..]) == b[3] as int;
    assert b[2..][1..] == b[3..];
    assert FromLE(b[2..]) == b[2] as int + 0x100 * b[3] as int;
    assert b[1..][1..] == b[2..];
    assert FromLE(b[1..]) == b[1] as int + 0x100 * b[2] as int + 0x1_0000 * b[3] as int;
  }

  /** The header's nodeCount reads back as the number of nodes. */
  lemma CountInLayout(data: seq<byte>, nodes: seq<QueryNode>, classes: map<int, seq<Token>>, pseudoClasses: map<int, seq<Token>>)
    requires |nodes| < TwoTo31
    ensures ReadInt(Layout(data, nodes, classes, pseudoClasses), 8) == |nodes|
  {
    var s := Layout(data, nodes, classes, pseudoClasses);
    assert s[8..12] == Int32Bytes(|nodes|);
    ReadBack(s, 8, |nodes|);
  }

  /** The int at field k of a record b that sits in s at at. */
  lemma ReadField(s: seq<byte>, at: nat, b: seq<byte>, k: nat, x: int)
    requires at + |b| <= |s| && s[at..at + |b|] == b && k + 4 <= |b|
    requires b[k..k + 4] == Int32Bytes(x) && 0 <= x < TwoTo31
    ensures ReadInt(s, at + k) == x
  {
    SubSlice(s, at, b, k, k + 4);
    assert s[at + k..at + k + 4] == b[k..k + 4];
    ReadBack(s, at + k, x);
  }

  /** A node's record sits in s at start, and its size fits an int. */
  ghost predicate RecordAt(s: seq<byte>, start: nat, data: seq<byte>, n: QueryNode, cls: seq<Token>, pcls: seq<Token>)
  {
    && start + NodeSize(n, cls, pcls) <= |s| && NodeSize(n, cls, pcls) < TwoTo31
    && s[start..start + NodeSize(n, cls, pcls)] == NodeBytes(data, n, cls, pcls)
  }

  /** A record's header: its size less the header, and the operation's byte. */
  lemma RecordHeader(s: seq<byte>, start: nat, data: seq<byte>, n: QueryNode, cls: seq<Token>, pcls: seq<Token>)
    requires RecordAt(s, start, data, n, cls, pcls)
    ensures ReadInt(s, start) + NodeHeaderSize == NodeSize(n, cls, pcls)
    ensures ByteAt(s, start + 4) == Code(n.operation)
  {
    var b := NodeBytes(data, n, cls, pcls);
    NodeHeaderFields(data, n, cls, pcls);
    ReadField(s, start, b, 0, NodeSize(n, cls, pcls) - NodeHeaderSize);
    assert s[start + 4] == b[4];
  }

  /** A record's two name lengths. */
  lemma RecordLengths(s: seq<byte>, start: nat, data: seq<byte>, n: QueryNode, cls: seq<Token>, pcls: seq<Token>)
    requires RecordAt(s, start, data, n, cls, pcls)
    ensures ReadInt(s, start + 8) == Len(n.elementNameToken)
    ensures ReadInt(s, start + 12 + Len(n.elementNameToken)) == Len(n.nameToken)
  {
    var b := NodeBytes(data, n, cls, pcls);
    NodeFields(data, n, cls, pcls);
    ReadField(s, start, b, 8, Len(n.elementNameToken));
    ReadField(s, start, b, 12 + Len(n.elementNameToken), Len(n.nameToken));
  }

  /** A record's two names: the bytes of the element name token and of the name token. */
  lemma RecordNames(s: seq<byte>, start: nat, data: seq<byte>, n: QueryNode, cls: seq<Token>, pcls: seq<Token>)
    requires RecordAt(s, start, data, n, cls, pcls)
    ensures start + 16 + Len(n.elementNameToken) + Len(n.nameToken) <= |s|
    ensures s[start + 12..start + 12 + Len(n.elementNameToken)] == TokenBytes(data, n.elementNameToken)
    ensures s[start + 16 + Len(n.elementNameToken)..start + 16 + Len(n.elementNameToken) + Len(n.nameToken)] == TokenBytes(data, n.nameToken)
  {
    var b := NodeBytes(data, n, cls, pcls);
    var e := Len(n.elementNameToken);
    NodeFields(data, n, cls, pcls);
    SubSlice(s, start, b, 12, 12 + e);
    SubSlice(s, start, b, 16 + e, 16 + e + Len(n.nameToken));
  }

  /** Node i's record sits in the buffer AllocateQueryData writes at NodeStart(i). */
  lemma NodeRecord(data: seq<byte>, nodes: seq<QueryNode>, classes: map<int, seq<Token>>, pseudoClasses: map<int, seq<Token>>, i: nat)
    requires i < |nodes| && QuerySize(nodes, classes, pseudoClasses) < TwoTo31
    ensures RecordAt(Layout(data, nodes, classes, pseudoClasses), NodeStart(nodes, classes, pseudoClasses, i),
                     data, nodes[i], ClassesOf(classes, nodes[i]), ClassesOf(pseudoClasses, nodes[i]))
  {
    NodeInLayout(data, nodes, classes, pseudoClasses, i);
  }

  /** In the buffer AllocateQueryData writes, every node's header holds its record's size less the header. */
  lemma NodeSizes(data: seq<byte>, nodes: seq<QueryNode>, classes: map<int, seq<Token>>, pseudoClasses: map<int, seq<Token>>)
    requires QuerySize(nodes, classes, pseudoClasses) < TwoTo31
    ensures forall i :: 0 <= i < |nodes| ==>
      ReadInt(Layout(data, nodes, classes, pseudoClasses), NodeStart(nodes, classes, pseudoClasses, i)) + NodeHeaderSize
        == SizeOf(nodes, classes, pseudoClasses, i)
  {
    forall i | 0 <= i < |nodes|
      ensures ReadInt(Layout(data, nodes, classes, pseudoClasses), NodeStart(nodes, classes, pseudoClasses, i)) + NodeHeaderSize
        == SizeOf(nodes, classes, pseudoClasses, i)
    {
      var n := nodes[i];
      NodeRecord(data, nodes, classes, pseudoClasses, i);
      RecordHeader(Layout(data, nodes, classes, pseudoClasses), NodeStart(nodes, classes, pseudoClasses, i),
                   data, n, ClassesOf(classes, n), ClassesOf(pseudoClasses, n));
    }
  }

  /**
   * Over any buffer whose node headers hold their records' sizes, the
   * (i + 1)-th MoveNext stops at node i's record: each step by a node
   * header's totalSize plus the header lands on the next record.
   */
  lemma {:induction false} WalkRecords(s: seq<byte>, nodes: seq<QueryNode>, classes: map<int, seq<Token>>, pseudoClasses: map<int, seq<Token>>, i: nat)
    requires i < |nodes|
    requires forall j :: 0 <= j < |nodes| ==>
      ReadInt(s, NodeStart(nodes, classes, pseudoClasses, j)) + NodeHeaderSize == SizeOf(nodes, classes, pseudoClasses, j)
    ensures OffsetAfter(s, i + 1) == NodeStart(nodes, classes, pseudoClasses, i)
  {
    if i > 0 {
      WalkRecords(s, nodes, classes, pseudoClasses, i - 1);
      NodesSizePrefix(nodes, classes, pseudoClasses, i - 1);
      assert OffsetAfter(s, i + 1) == Advance(s, OffsetAfter(s, i));
    }
  }

  /** The (i + 1)-th MoveNext over the buffer AllocateQueryData writes stops at node i's record. */
  lemma Walk(data: seq<byte>, nodes: seq<QueryNode>, classes: map<int, seq<Token>>, pseudoClasses: map<int, seq<Token>>, i: nat)
    requires i < |nodes| && QuerySize(nodes, classes, pseudoClasses) < TwoTo31
    ensures OffsetAfter(Layout(data, nodes, classes, pseudoClasses), i + 1) == NodeStart(nodes, classes, pseudoClasses, i)
  {
    NodeSizes(data, nodes, classes, pseudoClasses);
    WalkRecords(Layout(data, nodes, classes, pseudoClasses), nodes, classes, pseudoClasses, i);
  }

  /**
   * After i + 1 calls of MoveNext the enumerator's current node is node i:
   * handles on node i's element name and name, with the tokens' lengths,
   * inside node i's record, and node i's operation.
   */
  lemma EnumeratesNodes(data: seq<byte>, nodes: seq<QueryNode>, classes: map<int, seq<Token>>, pseudoClasses: map<int, seq<Token>>, i: nat)
    requires i < |nodes| && QuerySize(nodes, classes, pseudoClasses) < TwoTo31
    ensures var s := Layout(data, nodes, classes, pseudoClasses);
      var start := NodeStart(nodes, classes, pseudoClasses, i);
      var e := Len(nodes[i].elementNameToken);
      NodeAt(s, OffsetAfter(s, i + 1)) == Node(Handle(start + 12, e), Handle(start + 16 + e, Len(nodes[i].nameToken)), Code(nodes[i].operation))
  {
    var n := nodes[i];
    Walk(data, nodes, classes, pseudoClasses, i);
    NodeRecord(data, nodes, classes, pseudoClasses, i);
    RecordNode(Layout(data, nodes, classes, pseudoClasses), NodeStart(nodes, classes, pseudoClasses, i),
               data, n, ClassesOf(classes, n), ClassesOf(pseudoClasses, n));
  }

  /** What MoveNext reads at a record. */
  lemma RecordNode(s: seq<byte>, start: nat, data: seq<byte>, n: QueryNode, cls: seq<Token>, pcls: seq<Token>)
    requires RecordAt(s, start, data, n, cls, pcls)
    ensures var e := Len(n.elementNameToken);
      NodeAt(s, start) == Node(Handle(start + 12, e), Handle(start + 16 + e, Len(n.nameToken)), Code(n.operation))
  {
    RecordHeader(s, start, data, n, cls, pcls);
    RecordLengths(s, start, data, n, cls, pcls);
  }

  /** The bytes those handles point at are the bytes of node i's two tokens. */
  lemma NamesInLayout(data: seq<byte>, nodes: seq<QueryNode>, classes: map<int, seq<Token>>, pseudoClasses: map<int, seq<Token>>, i: nat)
    requires i < |nodes| && QuerySize(nodes, classes, pseudoClasses) < TwoTo31
    ensures var s := Layout(data, nodes, classes, pseudoClasses);
      var start := NodeStart(nodes, classes, pseudoClasses, i);
      var e := Len(nodes[i].elementNameToken);
      && start + 16 + e + Len(nodes[i].nameToken) <= |s|
      && s[start + 12..start + 12 + e] == TokenBytes(data, nodes[i].elementNameToken)
      && s[start + 16 + e..start + 16 + e + Len(nodes[i].nameToken)] == TokenBytes(data, nodes[i].nameToken)
  {
    var n := nodes[i];
    NodeRecord(data, nodes, classes, pseudoClasses, i);
    RecordNames(Layout(data, nodes, classes, pseudoClasses), NodeStart(nodes, classes, pseudoClasses, i),
                data, n, ClassesOf(classes, n), ClassesOf(pseudoClasses, n));
  }

  // ---------------------------------------------------------------- the pseudo-class section

  /**
   * A node's record as AllocateQueryData as written fills it: the
   * pseudo-class do-while writes the first pseudo-class and then asks the
   * class iterator, already spent, for the next one, so it stops there.
   */
  function NodeBytesAsWritten(data: seq<byte>, n: QueryNode, cls: seq<Token>, pcls: seq<Token>): seq<byte>
  {
    NodeHeaderBytes(n, cls, pcls) + Item(data, n.elementNameToken) + Item(data, n.nameToken)
      + ClassSection(data, cls)
      + Int32Bytes(ItemsSize(pcls)) + [ByteOf(|pcls| % 256)] + Zeros(3) + Items(data, pcls[..if pcls == [] then 0 else 1])
  }

  /**
   * With two pseudo-classes or more the record written is shorter than the
   * size its own header and GetQuerySize give it; every later record is
   * then written that much too early, while the enumerator looks for it
   * where the header points.
   */
  lemma PseudoClassesCut(data: seq<byte>, n: QueryNode, cls: seq<Token>, pcls: seq<Token>)
    requires |pcls| >= 2
    ensures |NodeBytesAsWritten(data, n, cls, pcls)| < NodeSize(n, cls, pcls)
    ensures NodeBytesAsWritten(data, n, cls, pcls)[..4] == Int32Bytes(NodeSize(n, cls, pcls) - NodeHeaderSize)
  {
    assert pcls[..1][..0] == [];
    assert ItemsSize(pcls[..1]) == ContentHeaderSize + Len(pcls[0]);
    ItemsPrefix(pcls, 1);
    assert pcls[..2][..1] == pcls[..1];
  }

  /** With one pseudo-class or none the record written is the whole record. */
  lemma PseudoClassesWhole(data: seq<byte>, n: QueryNode, cls: seq<Token>, pcls: seq<Token>)
    requires |pcls| <= 1
    ensures NodeBytesAsWritten(data, n, cls, pcls) == NodeBytes(data, n, cls, pcls)
  {
    assert pcls[..if pcls == [] then 0 else 1] == pcls;
  }

  /**
   * "a:x:y>b" is such a query: its one node has two pseudo-classes, and
   * the record written for it is 5 bytes (the ContentHeader and the byte
   * of "x") short of the 43 its header and the total size account for.
   */
  lemma PseudoClassesQuery()
    ensures var data: seq<byte> := [0x61, Colon, 0x78, Colon, 0x79, Greater, 0x62];
      var b := Run(Tokens(data, 0, 0));
      && |b.nodes| == 1
      && SizeOf(b.nodes, b.classes, b.pseudoClasses, 0) == 43
      && |NodeBytesAsWritten(data, b.nodes[0], ClassesOf(b.classes, b.nodes[0]), ClassesOf(b.pseudoClasses, b.nodes[0]))| == 38
  {
    var data: seq<byte> := [0x61, Colon, 0x78, Colon, 0x79, Greater, 0x62];
    TokensOfPseudoClasses();
    PseudoClassesOfQuery();
    var pcls := [Token(4, 1, Content), Token(2, 1, Content)];
    assert pcls[..1] == [Token(4, 1, Content)] && pcls[..1][..0] == [];
    assert pcls[..2][..1] == pcls[..1] && pcls[..2] == pcls;
    assert ItemsSize(pcls[..1]) == 5;
    assert ItemsSize(pcls) == 10;
  }

  /**
   * CreateQueryData: tokenize, build the nodes, write the buffer. The
   * buffer holds the nodes of Run over the query's tokens.
   */
  method CreateQueryData(data: seq<byte>) returns (queryData: array<byte>)
    ensures var b := Run(Tokens(data, 0, 0));
      queryData[..] == Layout(data, b.nodes, b.classes, b.pseudoClasses)
  {
    var tokens := Tokenize(data);
    var nodes, classes, pseudoClasses := BuildNodes(tokens);
    RunBookkeeping(tokens);
    queryData := AllocateQueryData(data, nodes, classes, pseudoClasses);
  }
}
