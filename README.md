# repotodeck core, modelled in Dafny

repotodeck turns a docker-compose file into a one-slide PowerPoint diagram.
Two pieces of logic sit behind its HTTP and PowerPoint/YAML plumbing, and
this project models both, with the `ServiceNode` record they share:

- **Service extraction** (`DockerParserService.parse`), taken from the point
  where the YAML text has been loaded into a tree. There is one node per
  map-valued entry of `services`, named after its key. The image defaults to
  `"unknown"`. The type is `"DATABASE"` when the lower-cased image contains
  postgres, mysql, mongo, redis or mariadb, and `"SERVICE"` otherwise. The
  links are the sorted, duplicate-free union of `depends_on` and `links`. A
  service whose construction throws is skipped and the others are kept.
- **Slide planning** (`PptGeneratorService.generateSlide`) with the POI calls
  stripped off. The i-th node goes on a fixed 3-column grid. Bounds go into an
  id-to-rectangle map where the later node wins. Each resolvable link becomes
  a line anchored on the min-corner / absolute-delta box between the two box
  centres, clamped to at least 1 by 1. The node's type picks the shape and
  fill colour, and its id and image make the label. An empty or null list
  gives a single placeholder text box instead.

Files and modules:

- `wrappers.dfy` (`Wrappers`): `Option`. `None` stands for Java's `null`.
- `java_text.dfy` (`JavaText`): `isBlank`, `toLowerCase`, `contains` and
  `compareTo` over Dafny strings.
- `sorted_strings.dfy` (`SortedStrings`): `TreeSet<String>` as a strictly
  increasing sequence.
- `service_model.dfy` (`ServiceModel`): the `ServiceNode` record, its
  defaults and its setters.
- `docker_parser.dfy` (`DockerParser`): the loaded-YAML datatype, the
  specification functions of `parse`, the imperative `Parse`, `BuildNode`,
  `ExtractLinksFromField` and the `LinkSet` class, and lemmas.
- `ppt_generator.dfy` (`PptGenerator`): the slide plan, its specification
  functions, the imperative `GenerateSlide`, `DrawConnectors`
  (`createNodeShape` has no loop and is the function `NodeShapeAt`), and lemmas.
- `controller.dfy` (`Controller`): one lemma about the parser's output as the
  generator draws it.

Each imperative method (a loop that fills a list, a map or a set) is proved
equal to a specification function. The properties are proved as lemmas
about those functions.

The slide test's comment (PptGeneratorServiceTest.java:79) speaks of a
"Tiered Layout", but the code places nodes on a fixed 3-column grid with
centre-to-centre lines, and the model follows the code.

YAML loading (`yaml.load`) is a parameter `load: string -> LoadResult`: it
either returns a `Yaml` tree or throws with a message. Java's coordinates
are doubles, but every value involved is an integer, and widths and heights
are even. So the model uses `int`, and halving a width is exact.

## Model

| member | source | states |
|---|---|---|
| ServiceModel.NewServiceNode | src/main/java/com/repotodeck/model/ServiceNode.java:14-30 | a fresh node has no id and no image (null), type "SERVICE" and an empty, non-null links list |
| ServiceModel.SetId | src/main/java/com/repotodeck/model/ServiceNode.java:8 | setId sets the id and leaves image, type and links unchanged |
| ServiceModel.SetImage | src/main/java/com/repotodeck/model/ServiceNode.java:8 | setImage sets the image and leaves the other three fields unchanged |
| ServiceModel.SetType | src/main/java/com/repotodeck/model/ServiceNode.java:8 | setType sets the type and leaves the other three fields unchanged |
| ServiceModel.SetLinks | src/main/java/com/repotodeck/model/ServiceNode.java:8 | setLinks sets the links and leaves the other three fields unchanged |
| ServiceModel.EqualityIsStructural | src/main/java/com/repotodeck/model/ServiceNode.java:8 | two nodes are equal iff all four fields are equal |
| ServiceModel.SetOwnValue | src/main/java/com/repotodeck/model/ServiceNode.java:8 | setting a field to its current value gives back the same node |
| JavaText.ContainsIff | src/main/java/com/repotodeck/service/DockerParserService.java:44-46 | the `contains` scan succeeds iff the substring occurs at some index |
| JavaText.LessTotal | src/main/java/com/repotodeck/service/DockerParserService.java:52 | the TreeSet's order, compareTo, is total: distinct strings compare one way or the other |
| JavaText.LessTransitive | src/main/java/com/repotodeck/service/DockerParserService.java:52 | compareTo's order is transitive |
| SortedStrings.Insert | src/main/java/com/repotodeck/service/DockerParserService.java:73 | TreeSet.add keeps the elements strictly sorted, and the new elements are the old ones plus the added string |
| SortedStrings.InsertAll | src/main/java/com/repotodeck/service/DockerParserService.java:52-54 | adding a run of strings keeps the set strictly sorted, and its elements are the old ones plus those strings |
| SortedStrings.SortedDistinct | src/main/java/com/repotodeck/service/DockerParserService.java:56 | the list copied from the TreeSet has no duplicates |
| SortedStrings.SortedUnique | src/main/java/com/repotodeck/service/DockerParserService.java:56 | two strictly sorted lists with the same elements are equal, so the links list is the one sorted list of its elements |
| DockerParser.Lookup | src/main/java/com/repotodeck/service/DockerParserService.java:23 | Map.get gives None iff no entry has the key, and otherwise the value stored under the key |
| DockerParser.ItemTextsFacts | src/main/java/com/repotodeck/service/DockerParserService.java:72-73 | taking the toString of every list item fails iff some item is null, and otherwise gives each item's text in order |
| DockerParser.FieldItemsFacts | src/main/java/com/repotodeck/service/DockerParserService.java:69-79 | a field adds exactly the strings it contributes: its list items' texts, its map keys, or itself if it is a string, and nothing for any other shape; it throws iff it is a list with a null item |
| DockerParser.LinkSet.constructor | src/main/java/com/repotodeck/service/DockerParserService.java:52 | a new TreeSet is empty |
| DockerParser.LinkSet.Add | src/main/java/com/repotodeck/service/DockerParserService.java:73 | add replaces the contents with their sorted insertion of the string |
| DockerParser.ExtractLinksFromField | src/main/java/com/repotodeck/service/DockerParserService.java:69-79 | the loops add the field's strings to the set in order; the method reports failure iff the field is a list with a null item |
| DockerParser.BuildNode | src/main/java/com/repotodeck/service/DockerParserService.java:30-57 | one turn of the services loop gives the node, "not a service" or "malformed" as the specification function says |
| DockerParser.Parse | src/main/java/com/repotodeck/service/DockerParserService.java:13-67 | parse, with checks and loop, returns exactly the specified outcome |
| DockerParser.ParseBlank | src/main/java/com/repotodeck/service/DockerParserService.java:14-16 | null or blank text gives an empty list and never reaches the loader |
| DockerParser.ParseFailsIff | src/main/java/com/repotodeck/service/DockerParserService.java:63-66 | parse throws iff the text is non-blank and loading throws, and the message then starts "Invalid YAML format: " |
| DockerParser.NoServicesMapping | src/main/java/com/repotodeck/service/DockerParserService.java:21-24 | a non-map root, or a missing or non-map `services`, gives an empty list |
| DockerParser.ServicesOfAppend | src/main/java/com/repotodeck/service/DockerParserService.java:29-61 | the nodes of a sequence of entries are the nodes of its parts, concatenated in entry order |
| DockerParser.SkippedEntryIsIgnored | src/main/java/com/repotodeck/service/DockerParserService.java:58-60 | a skipped entry, non-map or malformed, leaves the nodes of all the other entries as they would be without it |
| DockerParser.ServicesOfMembers | src/main/java/com/repotodeck/service/DockerParserService.java:29-57 | a node is in the result iff some entry builds it |
| DockerParser.ServicesOfAllBuilt | src/main/java/com/repotodeck/service/DockerParserService.java:29-57 | when every entry builds, the result has one node per entry, the i-th from the i-th, in the map's iteration order |
| DockerParser.BuildServiceOutcome | src/main/java/com/repotodeck/service/DockerParserService.java:30-60 | an entry is skipped as not a service iff its value is not a map; a map is skipped as malformed iff `image` is present but null, or a `depends_on` or `links` list has a null item |
| DockerParser.BuildServiceNode | src/main/java/com/repotodeck/service/DockerParserService.java:37-49 | id is the entry key; image is "unknown" when absent and the value's text otherwise; type is "DATABASE" iff the heuristic holds of the image, else "SERVICE" |
| DockerParser.BuildServiceLinks | src/main/java/com/repotodeck/service/DockerParserService.java:52-56 | links are non-null, strictly sorted and duplicate-free, and contain exactly what `depends_on` and `links` contribute |
| DockerParser.IsDatabaseImageIff | src/main/java/com/repotodeck/service/DockerParserService.java:44-49 | the heuristic holds iff one of the five engine names occurs in the lower-cased image |
| DockerParser.DatabaseHeuristicIgnoresCase | src/main/java/com/repotodeck/service/DockerParserService.java:44 | lower-casing the image first does not change the heuristic's answer |
| DockerParser.PostgresImageIsDatabase | src/test/java/com/repotodeck/service/DockerParserServiceTest.java:50 | postgres:14 is a database image |
| DockerParser.RedisImageIsDatabase | src/main/java/com/repotodeck/service/DockerParserService.java:46 | redis:7 is a database image, as the code decides (the test at DockerParserServiceTest.java:53 expects otherwise) |
| DockerParser.MixedCaseImageIsDatabase | src/main/java/com/repotodeck/service/DockerParserService.java:44-47 | MariaDB:11 is a database image despite its capitals |
| DockerParser.NginxImageIsService | src/test/java/com/repotodeck/service/DockerParserServiceTest.java:44-45 | nginx:latest is not a database image |
| DockerParser.ComposeTestFile | src/test/java/com/repotodeck/service/DockerParserServiceTest.java:19-54 | the test's compose file gives web, db, cache in order, with web's links [cache, db], cache's links [web], db and cache typed DATABASE |
| PptGenerator.ShapesOfAt | src/main/java/com/repotodeck/service/PptGeneratorService.java:54-62 | there is one shape per node, and node i's shape is anchored at (100 + (i mod 3)·250, 100 + (i div 3)·150, 200, 100) |
| PptGenerator.CellsDisjoint | src/main/java/com/repotodeck/service/PptGeneratorService.java:19-23 | the boxes of two distinct indices never overlap |
| PptGenerator.CellWithinColumns | src/main/java/com/repotodeck/service/PptGeneratorService.java:48-58 | every box lies horizontally within [100, 800], inside the 1920-wide page, with its top edge at y ≥ 100 |
| PptGenerator.CellFitsPageIff | src/main/java/com/repotodeck/service/PptGeneratorService.java:48-62 | a box fits in the 1080-high page iff its index is below 18 |
| PptGenerator.NodeShapeStyle | src/main/java/com/repotodeck/service/PptGeneratorService.java:76-115 | magnetic disk iff the type is exactly "DATABASE"; orange with the disk, blue with the rounded rectangle; anchor (x, y, 200, 100); the id run, plus a "\n"+image run iff the image is non-null and non-empty |
| PptGenerator.TypeMatchIsCaseSensitive | src/main/java/com/repotodeck/service/PptGeneratorService.java:79 | a type "database" is drawn as a blue rounded rectangle |
| PptGenerator.PositionsOfKeys | src/main/java/com/repotodeck/service/PptGeneratorService.java:51-63 | an id is in the position map iff some node has it |
| PptGenerator.PositionsOfLastWins | src/main/java/com/repotodeck/service/PptGeneratorService.java:63 | when an id repeats, the map holds the box of the last node with that id |
| PptGenerator.PositionsOfAreCells | src/main/java/com/repotodeck/service/PptGeneratorService.java:54-63 | every box in the map is the grid cell of an index whose node has that id |
| PptGenerator.Anchor | src/main/java/com/repotodeck/service/PptGeneratorService.java:134-153 | the line's anchor is at least 1 by 1, its corner is at the smaller centre coordinate on each axis, and its width (height) is exactly 1 when the centres share an x (y) coordinate |
| PptGenerator.AnchorSpansCentres | src/main/java/com/repotodeck/service/PptGeneratorService.java:144-151 | when the centres differ on an axis, the anchor's two edges on that axis are the two centre coordinates; when they agree, the anchor starts at that centre and is exactly 1 long on that axis |
| PptGenerator.AnchorSymmetric | src/main/java/com/repotodeck/service/PptGeneratorService.java:144-147 | swapping source and target gives the same anchor |
| PptGenerator.AnchorSelf | src/main/java/com/repotodeck/service/PptGeneratorService.java:146-151 | a self-link gives a 1-by-1 box at the box centre |
| PptGenerator.LinkConnectorsSingle | src/main/java/com/repotodeck/service/PptGeneratorService.java:127-131 | one link gives one line when its target is in the map and nothing otherwise |
| PptGenerator.LinkConnectorsAppend | src/main/java/com/repotodeck/service/PptGeneratorService.java:127-157 | a node's lines follow its links' order |
| PptGenerator.LinkConnectorsCount | src/main/java/com/repotodeck/service/PptGeneratorService.java:127-131 | there are at most as many lines as links; there is none when no target resolves; and when all resolve there is exactly one per link, in link order |
| PptGenerator.LinkConnectorsMembers | src/main/java/com/repotodeck/service/PptGeneratorService.java:127-153 | a line is drawn for a node iff one of its links resolves with that anchor |
| PptGenerator.ConnectorsOfAppend | src/main/java/com/repotodeck/service/PptGeneratorService.java:121-158 | lines come in node order, then link order |
| PptGenerator.ConnectorsOfMembers | src/main/java/com/repotodeck/service/PptGeneratorService.java:121-131 | a line is drawn iff some node with its id in the map and non-null links has a link whose target is in the map; null links, unknown sources and unknown targets draw nothing |
| PptGenerator.DrawConnectors | src/main/java/com/repotodeck/service/PptGeneratorService.java:120-159 | the nested loops with their centre, min, abs and clamp arithmetic produce exactly the specified lines |
| PptGenerator.GenerateSlide | src/main/java/com/repotodeck/service/PptGeneratorService.java:35-71 | the placeholder check, the grid loop filling the map and the shapes, then the connector pass, produce exactly the specified slide |
| PptGenerator.SlideOfShapes | src/main/java/com/repotodeck/service/PptGeneratorService.java:39-64 | the slide is the placeholder "No services to display" at (100, 100, 400, 50) iff the list is null or empty; otherwise it is a 1920×1080 page with one shape per node, all pairwise non-overlapping |
| PptGenerator.TestNodesSlide | src/test/java/com/repotodeck/service/PptGeneratorServiceTest.java:23-50 | the test's three nodes give three boxes on the first row, the last an orange disk, and the lines (200,150,250,1) and (450,150,250,1) |
| Controller.ParsedNodeStyle | src/main/java/com/repotodeck/controller/PptController.java:36-39 | every parsed node has an image, and is drawn as an orange disk iff that image passes the database heuristic |

## Left out

- Rendering through Apache POI is not modelled: creating the slide show and shapes, the black outline and gray connector colours, line widths, fonts (bold 14 pt and 10 pt white runs), centre alignment, clearing text, and writing the bytes with its `IOException`. These are library calls; the model records the plan they are given.
- The slide's default page size in the placeholder case is library state and is not recorded.
- `yaml.load` is a parameter of `Parse`; parsing YAML text and this loader's messages are not modelled. YAML keys are taken to be strings. A non-string scalar carries the text its `toString()` gives, since that text is the loader's business.
- A loaded map is a sequence of entries with distinct keys, as a Java map is. `Lookup` reads the first entry with a key.
- Null elements inside a node's `links` list, and null nodes inside the node list, are not modelled. In the source both lead to a lookup of a null key or a `NullPointerException`.
- `PptController` is HTTP glue and is not modelled. Only the parser-to-generator hand-off appears, in `Controller.ParsedNodeStyle`.
- Console diagnostics (`System.err`, `printStackTrace`) and the test that writes a debug file are output only and are not modelled.
- Tiers are named only in the slide test's comments (PptGeneratorServiceTest.java:79-91). The generator has no tier logic, so none is modelled.
- JavaText.Less: Java's `compareTo` compares UTF-16 code units, while Dafny orders characters by code point. The two orders differ only between supplementary characters and U+E000–U+FFFF.
- DockerParser.IsDatabaseImage: the model lower-cases only A–Z. Java's `toLowerCase()` follows the default locale. Under a Turkish locale, `I` becomes a dotless `ı`, so an upper-case `REDIS` or `MARIADB` is not detected there. The model assumes a locale without that rule.
- DockerParser.ExtractLinksFromField: when it fails, the partly filled set is left unspecified, because the caller drops it.
- The repository's parser test asserts "SERVICE" for `redis:7` (DockerParserServiceTest.java:53). The code classifies every image containing "redis" as DATABASE, and `RedisImageIsDatabase` and `ComposeTestFile` follow the code.
