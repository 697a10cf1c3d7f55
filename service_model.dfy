/**
 * The ServiceNode record shared by the parser and the slide generator: a
 * Lombok @Data value with four nullable fields, two of them defaulted.
 */
module ServiceModel {
  import opened Wrappers

  /** A Java String reference; `None` is null. */
  type JString = Option<string>

  /** The type a fresh node carries. */
  const DefaultType: string := "SERVICE"

  /** The type the parser's heuristic assigns and the generator draws as a disk. */
  const DatabaseType: string := "DATABASE"

  /** id: the compose service name; image: the container image; nodeType: the
      node's type; links: the ids of the services this one connects to. */
  datatype ServiceNode = ServiceNode(
    id: JString,
    image: JString,
    nodeType: JString,
    links: Option<seq<string>>)

  /** `new ServiceNode()`: id and image unset, type "SERVICE", links an empty list. */
  function NewServiceNode(): (n: ServiceNode)
    ensures n.id == None && n.image == None
    ensures n.nodeType == Some(DefaultType)
    ensures n.links == Some([])
  {
    ServiceNode(None, None, Some(DefaultType), Some([]))
  }

  /** setId: changes the id and nothing else. */
  function SetId(n: ServiceNode, id: JString): (r: ServiceNode)
    ensures r.id == id
    ensures r.image == n.image && r.nodeType == n.nodeType && r.links == n.links
  {
    n.(id := id)
  }

  /** setImage: changes the image and nothing else. */
  function SetImage(n: ServiceNode, image: JString): (r: ServiceNode)
    ensures r.image == image
    ensures r.id == n.id && r.nodeType == n.nodeType && r.links == n.links
  {
    n.(image := image)
  }

  /** setType: changes the type and nothing else. */
  function SetType(n: ServiceNode, nodeType: JString): (r: ServiceNode)
    ensures r.nodeType == nodeType
    ensures r.id == n.id && r.image == n.image && r.links == n.links
  {
    n.(nodeType := nodeType)
  }

  /** setLinks: changes the links and nothing else. */
  function SetLinks(n: ServiceNode, links: Option<seq<string>>): (r: ServiceNode)
    ensures r.links == links
    ensures r.id == n.id && r.image == n.image && r.nodeType == n.nodeType
  {
    n.(links := links)
  }

  /** equals: two nodes are equal exactly when all four fields are. */
  lemma EqualityIsStructural(a: ServiceNode, b: ServiceNode)
    ensures a == b <==> (a.id == b.id && a.image == b.image && a.nodeType == b.nodeType && a.links == b.links)
  {
  }

  /** Setting a field to the value it already has changes nothing. */
  lemma SetOwnValue(n: ServiceNode)
    ensures SetId(n, n.id) == n && SetImage(n, n.image) == n
    ensures SetType(n, n.nodeType) == n && SetLinks(n, n.links) == n
  {
  }
}
