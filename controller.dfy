/**
 * The two services composed as the controller composes them: the nodes the
 * parser returns are the nodes the slide generator draws.
 */
module Controller {
  import opened Wrappers
  import opened ServiceModel
  import opened DockerParser
  import opened PptGenerator

  /** A parsed node always has an image, and it is drawn as an orange disk
      exactly when that image passes the database heuristic. */
  lemma ParsedNodeStyle(entries: seq<(string, Yaml)>, k: nat, x: int, y: int)
    requires k < |ServicesOf(entries)|
    ensures var n := ServicesOf(entries)[k];
      && n.image.Some?
      && (NodeShapeAt(n, x, y).geometry == MagneticDisk <==> IsDatabaseImage(n.image.value))
      && (NodeShapeAt(n, x, y).fill == Orange <==> IsDatabaseImage(n.image.value))
  {
    var n := ServicesOf(entries)[k];
    ServicesOfMembers(entries, n);
    var i :| 0 <= i < |entries| && BuildService(entries[i].0, entries[i].1) == Node(n);
    BuildServiceNode(entries[i].0, entries[i].1);
  }
}
