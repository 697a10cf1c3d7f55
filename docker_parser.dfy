/**
 * DockerParserService.parse after the YAML text has been loaded: one
 * ServiceNode per map-valued entry of the top-level `services` mapping, with
 * the "unknown" image default, the DATABASE image heuristic and the sorted,
 * duplicate-free links gathered from `depends_on` and `links`.
 */
module DockerParser {
  import opened Wrappers
  import opened JavaText
  import opened SortedStrings
  import opened ServiceModel

  /** A value as the YAML loader returns it. YScalar is any non-null scalar
      that is not a string (a number, a boolean, a date) and carries the text
      its toString() gives. A YMap's entries are a Java map's entries in
      iteration order, so their keys are distinct. */
  datatype Yaml =
    | YNull
    | YStr(s: string)
    | YScalar(text: string)
    | YList(items: seq<Yaml>)
    | YMap(entries: seq<(string, Yaml)>)

  /** What yaml.load(content) did: returned a value, or threw with a message
      (getMessage() may be null). */
  datatype LoadResult = Loaded(root: Yaml) | LoadFailed(message: Option<string>)

  /** What parse did: returned a list of nodes, or threw a RuntimeException
      carrying this message. */
  datatype ParseOutcome = Nodes(nodes: seq<ServiceNode>) | InvalidYaml(message: string)

  /** How one entry of `services` fared: built, skipped because its value is
      not a mapping, or skipped because building it threw. */
  datatype Built = Node(node: ServiceNode) | NotAService | Malformed

  const ErrorPrefix: string := "Invalid YAML format: "
  const UnknownImage: string := "unknown"
  const DatabaseKeywords: seq<string> := ["postgres", "mysql", "mongo", "redis", "mariadb"]

  /** Map.get: the value stored under `key`, None when the key is absent. */
  function Lookup(entries: seq<(string, Yaml)>, key: string): (r: Option<Yaml>)
    ensures r.None? <==> forall i :: 0 <= i < |entries| ==> entries[i].0 != key
    ensures r.Some? ==> exists i :: 0 <= i < |entries| && entries[i] == (key, r.value)
    decreases |entries|
  {
    if |entries| == 0 then None
    else if entries[0].0 == key then Some(entries[0].1)
    else
      var r := Lookup(entries[1..], key);
      assert forall i :: 1 <= i < |entries| ==> entries[i] == entries[1..][i - 1];
      r
  }

  /** Joins parts with ", ", as AbstractCollection.toString does. */
  function Join(parts: seq<string>): string
    decreases |parts|
  {
    if |parts| == 0 then ""
    else if |parts| == 1 then parts[0]
    else parts[0] + ", " + Join(parts[1..])
  }

  /** String.valueOf of a loaded value: a string is itself, a list renders as
      "[a, b]" and a mapping as "{k=v, ...}". */
  function Render(y: Yaml): string
    decreases y
  {
    match y
    case YNull => "null"
    case YStr(s) => s
    case YScalar(t) => t
    case YList(items) =>
      "[" + Join(seq(|items|, i requires 0 <= i < |items| => Render(items[i]))) + "]"
    case YMap(entries) =>
      "{" + Join(seq(|entries|, i requires 0 <= i < |entries| => entries[i].0 + "=" + Render(entries[i].1))) + "}"
  }

  /** value.toString(): None when the value is null, where Java throws a
      NullPointerException. */
  function ToText(y: Yaml): Option<string> {
    if y.YNull? then None else Some(Render(y))
  }

  /** The text of each list item in order; None when an item is null. */
  function ItemTexts(items: seq<Yaml>): Option<seq<string>>
    decreases |items|
  {
    if |items| == 0 then Some([])
    else
      match ItemTexts(items[..|items| - 1])
      case None => None
      case Some(texts) =>
        match ToText(items[|items| - 1])
        case None => None
        case Some(t) => Some(texts + [t])
  }

  function Keys(entries: seq<(string, Yaml)>): seq<string> {
    seq(|entries|, i requires 0 <= i < |entries| => entries[i].0)
  }

  /** The strings extractLinksFromField adds for a field, in the order it adds
      them; None when it throws. An absent or null field, a non-string scalar
      and every other shape add nothing. */
  function FieldItems(field: Option<Yaml>): Option<seq<string>> {
    if field.None? then Some([])
    else
      match field.value
      case YList(items) => ItemTexts(items)
      case YMap(entries) => Some(Keys(entries))
      case YStr(s) => Some([s])
      case _ => Some([])
  }

  /** Reference description of what a field contributes to the links, one
      element at a time. */
  ghost predicate Contributes(field: Option<Yaml>, e: string) {
    field.Some? &&
    match field.value
    case YList(items) => exists i :: 0 <= i < |items| && !items[i].YNull? && Render(items[i]) == e
    case YMap(entries) => exists i :: 0 <= i < |entries| && entries[i].0 == e
    case YStr(s) => s == e
    case _ => false
  }

  /** A field whose link extraction throws: a list with a null item. */
  ghost predicate HasNullItem(field: Option<Yaml>) {
    field.Some? && field.value.YList? && exists i :: 0 <= i < |field.value.items| && field.value.items[i].YNull?
  }

  lemma {:induction false} ItemTextsFacts(items: seq<Yaml>)
    ensures ItemTexts(items).None? <==> exists i :: 0 <= i < |items| && items[i].YNull?
    ensures ItemTexts(items).Some? ==>
      |ItemTexts(items).value| == |items| &&
      forall i :: 0 <= i < |items| ==> ItemTexts(items).value[i] == Render(items[i])
    decreases |items|
  {
    if |items| > 0 {
      var init := items[..|items| - 1];
      ItemTextsFacts(init);
      assert forall i :: 0 <= i < |init| ==> init[i] == items[i];
    }
  }

  /** The strings a field adds are exactly the ones it contributes; it throws
      exactly when it is a list with a null item. */
  lemma FieldItemsFacts(field: Option<Yaml>)
    ensures FieldItems(field).None? <==> HasNullItem(field)
    ensures FieldItems(field).Some? ==>
      forall e :: e in FieldItems(field).value <==> Contributes(field, e)
  {
    if field.Some? && field.value.YList? {
      var items := field.value.items;
      ItemTextsFacts(items);
      if ItemTexts(items).Some? {
        var texts := ItemTexts(items).value;
        forall e
          ensures e in texts <==> Contributes(field, e)
        {
          if e in texts {
            var i :| 0 <= i < |texts| && texts[i] == e;
            assert !items[i].YNull? && Render(items[i]) == e;
          }
        }
      }
    } else if field.Some? && field.value.YMap? {
      var entries := field.value.entries;
      forall e
        ensures e in Keys(entries) <==> Contributes(field, e)
      {
        if e in Keys(entries) {
          var i :| 0 <= i < |entries| && Keys(entries)[i] == e;
          assert entries[i].0 == e;
        }
        if Contributes(field, e) {
          var i :| 0 <= i < |entries| && entries[i].0 == e;
          assert Keys(entries)[i] == e;
        }
      }
    }
  }

  /** A string without the first character of `sub` does not contain it. */
  lemma {:induction false} FirstCharAbsent(s: string, sub: string)
    requires |sub| > 0 && sub[0] !in s
    ensures !Contains(s, sub)
    decreases |s|
  {
    if |s| > 0 {
      FirstCharAbsent(s[1..], sub);
      assert s[0] != sub[0];
      if |sub| <= |s| {
        assert s[..|sub|][0] == s[0];
      }
    }
  }

  /** The lower-cased image contains one of the database engine names. */
  predicate IsDatabaseImage(image: string) {
    var lower := ToLower(image);
    Contains(lower, "postgres") || Contains(lower, "mysql") || Contains(lower, "mongo")
    || Contains(lower, "redis") || Contains(lower, "mariadb")
  }

  /** image as getOrDefault("image", "unknown").toString() yields it; None
      when the key is present with a null value. */
  function ImageOf(def: seq<(string, Yaml)>): Option<string> {
    match Lookup(def, "image")
    case None => Some(UnknownImage)
    case Some(v) => ToText(v)
  }

  /** The body of the per-service try block. */
  function BuildService(name: string, value: Yaml): Built {
    match value
    case YMap(def) =>
      (match (ImageOf(def), FieldItems(Lookup(def, "depends_on")), FieldItems(Lookup(def, "links")))
       case (Some(image), Some(dependsOn), Some(linked)) =>
         var node := SetImage(SetId(NewServiceNode(), Some(name)), Some(image));
         var typed := if IsDatabaseImage(image) then SetType(node, Some(DatabaseType)) else node;
         Node(SetLinks(typed, Some(InsertAll(InsertAll([], dependsOn), linked))))
       case _ => Malformed)
    case _ => NotAService
  }

  /** The nodes built from the entries, in entry order. */
  function ServicesOf(entries: seq<(string, Yaml)>): seq<ServiceNode>
    decreases |entries|
  {
    if |entries| == 0 then []
    else
      var last := entries[|entries| - 1];
      var built := BuildService(last.0, last.1);
      ServicesOf(entries[..|entries| - 1]) + (if built.Node? then [built.node] else [])
  }

  /** The nodes of a loaded document: none unless the root and its `services`
      value are both mappings. */
  function ServicesIn(root: Yaml): seq<ServiceNode> {
    match root
    case YMap(top) =>
      (match Lookup(top, "services")
       case Some(YMap(services)) => ServicesOf(services)
       case _ => [])
    case _ => []
  }

  /** DockerParserService.parse, with yaml.load given as `load`. */
  function ParseResult(content: Option<string>, load: string -> LoadResult): ParseOutcome {
    if content.None? || IsBlank(content.value) then Nodes([])
    else
      match load(content.value)
      case LoadFailed(message) =>
        InvalidYaml(ErrorPrefix + (if message.Some? then message.value else "null"))
      case Loaded(root) => Nodes(ServicesIn(root))
  }

  /** The TreeSet<String> parse collects one service's links into. */
  class LinkSet {
    var elems: seq<string>

    ghost predicate Valid()
      reads this
    {
      StrictlySorted(elems)
    }

    constructor ()
      ensures Valid() && elems == []
    {
      elems := [];
    }

    method Add(x: string)
      requires Valid()
      modifies this
      ensures Valid() && elems == Insert(old(elems), x)
    {
      elems := Insert(elems, x);
    }
  }

  /** extractLinksFromField: adds the field's strings to `links`; false when
      it throws, leaving the set in an unspecified state the caller drops. */
  method ExtractLinksFromField(field: Option<Yaml>, links: LinkSet) returns (ok: bool)
    requires links.Valid()
    modifies links
    ensures links.Valid()
    ensures ok <==> FieldItems(field).Some?
    ensures ok ==> links.elems == InsertAll(old(links.elems), FieldItems(field).value)
  {
    if field.None? {
      return true;
    }
    match field.value {
      case YList(items) =>
        for i := 0 to |items|
          invariant links.Valid()
          invariant ItemTexts(items[..i]).Some?
          invariant links.elems == InsertAll(old(links.elems), ItemTexts(items[..i]).value)
        {
          assert items[..i + 1][..i] == items[..i];
          if items[i].YNull? {
            ItemTextsFacts(items);
            return false;
          }
          links.Add(Render(items[i]));
        }
        assert items[..|items|] == items;
        return true;
      case YMap(entries) =>
        var keys := Keys(entries);
        for i := 0 to |entries|
          invariant links.Valid()
          invariant links.elems == InsertAll(old(links.elems), keys[..i])
        {
          assert keys[..i + 1][..i] == keys[..i];
          links.Add(entries[i].0);
        }
        assert keys[..|entries|] == keys;
        return true;
      case YStr(s) =>
        links.Add(s);
        assert [s][..0] == [];
        return true;
      case _ =>
        return true;
    }
  }

  /** One iteration of parse's loop over the services. */
  method BuildNode(name: string, value: Yaml) returns (built: Built)
    ensures built == BuildService(name, value)
  {
    if !value.YMap? {
      return NotAService;
    }
    var def := value.entries;
    var node := NewServiceNode();
    node := SetId(node, Some(name));
    var imageValue := Lookup(def, "image");
    var image: string;
    if imageValue.None? {
      image := UnknownImage;
    } else if imageValue.value.YNull? {
      return Malformed;
    } else {
      image := Render(imageValue.value);
    }
    node := SetImage(node, Some(image));
    if IsDatabaseImage(image) {
      node := SetType(node, Some(DatabaseType));
    }
    var links := new LinkSet();
    var ok := ExtractLinksFromField(Lookup(def, "depends_on"), links);
    if !ok {
      return Malformed;
    }
    ok := ExtractLinksFromField(Lookup(def, "links"), links);
    if !ok {
      return Malformed;
    }
    node := SetLinks(node, Some(links.elems));
    return Node(node);
  }

  /** DockerParserService.parse. */
  method Parse(content: Option<string>, load: string -> LoadResult) returns (outcome: ParseOutcome)
    ensures outcome == ParseResult(content, load)
  {
    if content.None? || IsBlank(content.value) {
      return Nodes([]);
    }
    var loaded := load(content.value);
    if loaded.LoadFailed? {
      var detail := if loaded.message.Some? then loaded.message.value else "null";
      return InvalidYaml(ErrorPrefix + detail);
    }
    var root := loaded.root;
    if !root.YMap? {
      return Nodes([]);
    }
    var servicesValue := Lookup(root.entries, "services");
    if servicesValue.None? || !servicesValue.value.YMap? {
      return Nodes([]);
    }
    var services := servicesValue.value.entries;
    var result: seq<ServiceNode> := [];
    for i := 0 to |services|
      invariant result == ServicesOf(services[..i])
    {
      assert services[..i + 1][..i] == services[..i];
      var built := BuildNode(services[i].0, services[i].1);
      if built.Node? {
        result := result + [built.node];
      }
    }
    assert services[..|services|] == services;
    return Nodes(result);
  }

  /** Null or blank text gives an empty list without calling the loader. */
  lemma ParseBlank(content: Option<string>, load: string -> LoadResult)
    requires content.None? || IsBlank(content.value)
    ensures ParseResult(content, load) == Nodes([])
  {
  }

  /** parse throws exactly when the text is not blank and loading it throws,
      and then its message starts with "Invalid YAML format: ". */
  lemma ParseFailsIff(content: Option<string>, load: string -> LoadResult)
    ensures ParseResult(content, load).InvalidYaml? <==>
      content.Some? && !IsBlank(content.value) && load(content.value).LoadFailed?
    ensures ParseResult(content, load).InvalidYaml? ==>
      StartsWith(ParseResult(content, load).message, ErrorPrefix)
  {
  }

  /** A root that is not a mapping, or whose `services` value is missing or
      not a mapping, gives an empty list. */
  lemma NoServicesMapping(root: Yaml)
    requires !root.YMap? || Lookup(root.entries, "services").None? || !Lookup(root.entries, "services").value.YMap?
    ensures ServicesIn(root) == []
  {
  }

  /** The nodes of two runs of entries are those of each run, in order. */
  lemma {:induction false} ServicesOfAppend(a: seq<(string, Yaml)>, b: seq<(string, Yaml)>)
    ensures ServicesOf(a + b) == ServicesOf(a) + ServicesOf(b)
    decreases |b|
  {
    if |b| == 0 {
      assert a + b == a;
    } else {
      var init := b[..|b| - 1];
      assert (a + b)[..|a + b| - 1] == a + init;
      assert (a + b)[|a + b| - 1] == b[|b| - 1];
      ServicesOfAppend(a, init);
    }
  }

  /** An entry that is skipped, as not a mapping or as malformed, leaves the
      nodes of all the other entries as they would be without it. */
  lemma SkippedEntryIsIgnored(before: seq<(string, Yaml)>, e: (string, Yaml), after: seq<(string, Yaml)>)
    requires !BuildService(e.0, e.1).Node?
    ensures ServicesOf(before + [e] + after) == ServicesOf(before) + ServicesOf(after)
  {
    assert ServicesOf([e]) == [] by {
      assert [e][..0] == [];
    }
    ServicesOfAppend(before, [e]);
    ServicesOfAppend(before + [e], after);
  }

  /** A node is in the result exactly when some entry builds it. */
  lemma {:induction false} ServicesOfMembers(entries: seq<(string, Yaml)>, n: ServiceNode)
    ensures n in ServicesOf(entries) <==>
      exists i :: 0 <= i < |entries| && BuildService(entries[i].0, entries[i].1) == Node(n)
    decreases |entries|
  {
    if |entries| > 0 {
      var init := entries[..|entries| - 1];
      ServicesOfMembers(init, n);
      assert forall i :: 0 <= i < |init| ==> init[i] == entries[i];
    }
  }

  /** When every entry builds, the result has one node per entry, the i-th
      built from the i-th entry. */
  lemma {:induction false} ServicesOfAllBuilt(entries: seq<(string, Yaml)>)
    requires forall i :: 0 <= i < |entries| ==> BuildService(entries[i].0, entries[i].1).Node?
    ensures |ServicesOf(entries)| == |entries|
    ensures forall i :: 0 <= i < |entries| ==>
      ServicesOf(entries)[i] == BuildService(entries[i].0, entries[i].1).node
    decreases |entries|
  {
    if |entries| > 0 {
      var init := entries[..|entries| - 1];
      var last := entries[|entries| - 1];
      assert forall i :: 0 <= i < |init| ==> init[i] == entries[i];
      ServicesOfAllBuilt(init);
      assert BuildService(last.0, last.1).Node?;
      assert ServicesOf(entries) == ServicesOf(init) + [BuildService(last.0, last.1).node];
    }
  }

  /** Which entries are skipped: those whose value is not a mapping, and those
      whose image is present but null or whose depends_on or links list holds
      a null item. */
  lemma BuildServiceOutcome(name: string, value: Yaml)
    ensures BuildService(name, value).NotAService? <==> !value.YMap?
    ensures value.YMap? ==>
      (BuildService(name, value).Malformed? <==>
        || Lookup(value.entries, "image") == Some(YNull)
        || HasNullItem(Lookup(value.entries, "depends_on"))
        || HasNullItem(Lookup(value.entries, "links")))
  {
    if value.YMap? {
      FieldItemsFacts(Lookup(value.entries, "depends_on"));
      FieldItemsFacts(Lookup(value.entries, "links"));
    }
  }

  /** A built node is named after its entry, has the image text or "unknown"
      when the key is absent, and is typed DATABASE exactly when the image
      passes the heuristic, SERVICE otherwise. */
  lemma BuildServiceNode(name: string, value: Yaml)
    requires BuildService(name, value).Node?
    ensures value.YMap?
    ensures var n := BuildService(name, value).node;
      var image := Lookup(value.entries, "image");
      && n.id == Some(name)
      && n.image == Some(if image.None? then UnknownImage else Render(image.value))
      && n.nodeType == Some(if IsDatabaseImage(n.image.value) then DatabaseType else DefaultType)
  {
  }

  /** A built node's links are sorted without duplicates and hold exactly the
      strings depends_on and links contribute. */
  lemma BuildServiceLinks(name: string, value: Yaml)
    requires BuildService(name, value).Node?
    ensures value.YMap?
    ensures var n := BuildService(name, value).node;
      && n.links.Some?
      && StrictlySorted(n.links.value)
      && (forall i, j :: 0 <= i < j < |n.links.value| ==> n.links.value[i] != n.links.value[j])
      && forall e :: e in n.links.value <==>
        Contributes(Lookup(value.entries, "depends_on"), e) || Contributes(Lookup(value.entries, "links"), e)
  {
    var n := BuildService(name, value).node;
    FieldItemsFacts(Lookup(value.entries, "depends_on"));
    FieldItemsFacts(Lookup(value.entries, "links"));
    SortedDistinct(n.links.value);
  }

  /** The heuristic holds exactly when one of the five engine names occurs in
      the lower-cased image. */
  lemma IsDatabaseImageIff(image: string)
    ensures IsDatabaseImage(image) <==>
      exists k, i :: k in DatabaseKeywords && OccursAt(ToLower(image), k, i)
  {
    var lower := ToLower(image);
    ContainsIff(lower, "postgres");
    ContainsIff(lower, "mysql");
    ContainsIff(lower, "mongo");
    ContainsIff(lower, "redis");
    ContainsIff(lower, "mariadb");
  }

  /** The heuristic does not see letter case. */
  lemma DatabaseHeuristicIgnoresCase(image: string)
    ensures IsDatabaseImage(ToLower(image)) == IsDatabaseImage(image)
  {
    ToLowerIdempotent(image);
  }

  /** postgres:14 from the repository's parser test is a database image. */
  lemma PostgresImageIsDatabase()
    ensures IsDatabaseImage("postgres:14")
  {
    var lower := ToLower("postgres:14");
    assert lower[0..8] == "postgres";
    assert OccursAt(lower, "postgres", 0);
    ContainsIff(lower, "postgres");
  }

  /** So is redis:7, although the test expects SERVICE for it. */
  lemma RedisImageIsDatabase()
    ensures IsDatabaseImage("redis:7")
  {
    var lower := ToLower("redis:7");
    assert lower[0..5] == "redis";
    assert OccursAt(lower, "redis", 0);
    ContainsIff(lower, "redis");
  }

  /** Letter case does not hide an engine name. */
  lemma MixedCaseImageIsDatabase()
    ensures IsDatabaseImage("MariaDB:11")
  {
    var lower := ToLower("MariaDB:11");
    assert lower[0..7] == "mariadb";
    assert OccursAt(lower, "mariadb", 0);
    ContainsIff(lower, "mariadb");
  }

  /** nginx:latest is not a database image. */
  lemma NginxImageIsService()
    ensures !IsDatabaseImage("nginx:latest")
  {
    var nginx := "nginx:latest";
    assert ToLower(nginx) == nginx;
    assert 'p' !in nginx && 'm' !in nginx && 'r' !in nginx;
    FirstCharAbsent(nginx, "postgres");
    FirstCharAbsent(nginx, "mysql");
    FirstCharAbsent(nginx, "mongo");
    FirstCharAbsent(nginx, "redis");
    FirstCharAbsent(nginx, "mariadb");
  }

  /** The compose file of the repository's parser test, as loaded. */
  const WebService: Yaml := YMap([("image", YStr("nginx:latest")), ("depends_on", YList([YStr("db"), YStr("cache")]))])
  const DbService: Yaml := YMap([("image", YStr("postgres:14"))])
  const CacheService: Yaml := YMap([("image", YStr("redis:7")), ("links", YList([YStr("web")]))])

  lemma WebDependsOn()
    ensures FieldItems(Lookup(WebService.entries, "depends_on")) == Some(["db", "cache"])
  {
    var items := [YStr("db"), YStr("cache")];
    assert Lookup(WebService.entries, "depends_on") == Some(YList(items));
    assert items[..1][..0] == [];
    assert ToText(YStr("db")) == Some("db");
    assert ToText(YStr("cache")) == Some("cache");
    var none: seq<string> := [];
    assert none + ["db"] == ["db"];
    assert ItemTexts(items[..1]) == Some(["db"]);
    assert items[..|items| - 1] == items[..1];
    assert items[|items| - 1] == YStr("cache");
    assert ItemTexts(items) == Some(["db"] + ["cache"]);
    assert ["db"] + ["cache"] == ["db", "cache"];
  }

  lemma WebLinksSorted()
    ensures InsertAll([], ["db", "cache"]) == ["cache", "db"]
  {
    assert ["db", "cache"][..1] == ["db"];
    assert ["db"][..0] == [];
    assert Less("cache", "db");
  }

  /** A mapping builds the node its image and two link fields give. */
  lemma BuildServiceFromParts(name: string, def: seq<(string, Yaml)>, image: string, dependsOn: seq<string>, linked: seq<string>)
    requires ImageOf(def) == Some(image)
    requires FieldItems(Lookup(def, "depends_on")) == Some(dependsOn)
    requires FieldItems(Lookup(def, "links")) == Some(linked)
    ensures BuildService(name, YMap(def)) ==
      Node(ServiceNode(Some(name), Some(image), Some(if IsDatabaseImage(image) then DatabaseType else DefaultType),
                       Some(InsertAll(InsertAll([], dependsOn), linked))))
  {
  }

  lemma WebFields()
    ensures ImageOf(WebService.entries) == Some("nginx:latest")
    ensures FieldItems(Lookup(WebService.entries, "links")) == Some([])
  {
    assert Lookup(WebService.entries, "image") == Some(YStr("nginx:latest"));
    assert Lookup(WebService.entries, "links") == None;
  }

  lemma WebEntryBuilds()
    ensures BuildService("web", WebService) ==
      Node(ServiceNode(Some("web"), Some("nginx:latest"), Some(DefaultType), Some(["cache", "db"])))
  {
    NginxImageIsService();
    WebDependsOn();
    WebLinksSorted();
    WebFields();
    BuildServiceFromParts("web", WebService.entries, "nginx:latest", ["db", "cache"], []);
    var none: seq<string> := [];
    assert InsertAll(["cache", "db"], none) == ["cache", "db"];
  }

  lemma DbFields()
    ensures ImageOf(DbService.entries) == Some("postgres:14")
    ensures FieldItems(Lookup(DbService.entries, "depends_on")) == Some([])
    ensures FieldItems(Lookup(DbService.entries, "links")) == Some([])
  {
    assert Lookup(DbService.entries, "image") == Some(YStr("postgres:14"));
    assert Lookup(DbService.entries, "depends_on") == None;
    assert Lookup(DbService.entries, "links") == None;
  }

  lemma DbEntryBuilds()
    ensures BuildService("db", DbService) ==
      Node(ServiceNode(Some("db"), Some("postgres:14"), Some(DatabaseType), Some([])))
  {
    PostgresImageIsDatabase();
    DbFields();
    BuildServiceFromParts("db", DbService.entries, "postgres:14", [], []);
    var none: seq<string> := [];
    assert InsertAll(InsertAll(none, none), none) == none;
  }

  lemma CacheFields()
    ensures ImageOf(CacheService.entries) == Some("redis:7")
    ensures FieldItems(Lookup(CacheService.entries, "depends_on")) == Some([])
  {
    assert Lookup(CacheService.entries, "image") == Some(YStr("redis:7"));
    assert Lookup(CacheService.entries, "depends_on") == None;
  }

  lemma CacheLinks()
    ensures FieldItems(Lookup(CacheService.entries, "links")) == Some(["web"])
  {
    var items := [YStr("web")];
    assert Lookup(CacheService.entries, "links") == Some(YList(items));
    assert items[..0] == [];
    assert ToText(YStr("web")) == Some("web");
    var none: seq<string> := [];
    assert none + ["web"] == ["web"];
    assert ItemTexts(items) == Some(["web"]);
  }

  lemma CacheEntryBuilds()
    ensures BuildService("cache", CacheService) ==
      Node(ServiceNode(Some("cache"), Some("redis:7"), Some(DatabaseType), Some(["web"])))
  {
    RedisImageIsDatabase();
    CacheFields();
    CacheLinks();
    BuildServiceFromParts("cache", CacheService.entries, "redis:7", [], ["web"]);
    var none: seq<string> := [];
    assert InsertAll(none, none) == none;
    assert InsertAll(none, ["web"]) == ["web"] by {
      assert ["web"][..0] == [];
    }
  }

  const TestServices: seq<(string, Yaml)> := [("web", WebService), ("db", DbService), ("cache", CacheService)]
  const TestCompose: Yaml := YMap([("version", YStr("3.8")), ("services", YMap(TestServices))])

  const WebNode := ServiceNode(Some("web"), Some("nginx:latest"), Some(DefaultType), Some(["cache", "db"]))
  const DbNode := ServiceNode(Some("db"), Some("postgres:14"), Some(DatabaseType), Some([]))
  const CacheNode := ServiceNode(Some("cache"), Some("redis:7"), Some(DatabaseType), Some(["web"]))

  lemma TestServicesFirstTwo()
    ensures ServicesOf(TestServices[..2]) == [WebNode, DbNode]
  {
    WebEntryBuilds();
    DbEntryBuilds();
    var services := TestServices[..2];
    assert services[..1][..0] == [];
    assert services[..1] == [("web", WebService)];
    assert ServicesOf(services[..1]) == [WebNode];
    assert services[..|services| - 1] == services[..1];
    assert services[|services| - 1] == ("db", DbService);
  }

  /** That file yields web, db and cache in file order; web links to cache and
      db in sorted order, cache links to web, and redis:7 is typed DATABASE. */
  lemma ComposeTestFile()
    ensures ServicesIn(TestCompose) == [WebNode, DbNode, CacheNode]
  {
    CacheEntryBuilds();
    TestServicesFirstTwo();
    assert TestServices[..|TestServices| - 1] == TestServices[..2];
    assert ServicesOf(TestServices) == [WebNode, DbNode, CacheNode];
    assert Lookup(TestCompose.entries, "services") == Some(YMap(TestServices));
  }
}
