/** The unified location plan (scripts/migrate_unified_schema.py, build_location_plan). */
module UnifiedSchema {
  import opened Basics
  import opened Ordering
  import opened Text
  import opened IdAssignment

  type Properties = map<string, string>

  datatype Node = Node(elementId: string, labels: set<string>, properties: Properties)

  /** The digest-based helpers: stable_suffix, its first eight characters, and slug. */
  datatype Naming = Naming(suffix: Node -> string, short: Node -> string, slug: string -> string)

  datatype Row = Row(elementId: string, labelsToAdd: set<string>, updates: Properties, locationId: string, kind: string)

  /** The rows and the projected counts. */
  datatype Plan = Plan(rows: seq<Row>, locationCount: nat, uniqueLocationIds: nat, warehouseCount: nat,
                       uniqueWarehouseIds: nat)

  datatype Error = UnknownKind(elementId: string)

  const LOCATION_KIND_ORDER: seq<(string, string)> :=
    [("Port", "port"), ("Airport", "airport"), ("RailTerminal", "rail_terminal"),
     ("RoadTerminal", "road_terminal"), ("Factory", "factory")]

  const WAREHOUSE_LABELS: set<string> :=
    {"Warehouse", "ExportWarehouse", "OverseasWarehouse", "DepartureWarehouse", "ArrivalWarehouse"}

  const WAREHOUSE_ID_FIELDS: seq<string> := ["warehouse_id", "code", "airportId", "id"]

  function LocationIdFields(kind: string): (fields: seq<string>)
    ensures fields != [] && fields[0] == "location_id"
  {
    if kind == "port" then ["location_id", "unlocode", "port_id", "code", "id"]
    else if kind == "airport" then ["location_id", "iata", "iata_code", "icao", "airportId", "code", "id"]
    else if kind == "rail_terminal" then ["location_id", "terminal_code", "code", "id", "name"]
    else if kind == "road_terminal" then ["location_id", "road_terminal_id", "terminal_code", "code", "id", "name"]
    else if kind == "factory" then ["location_id", "factory_id", "factoryId", "factoryCode", "code", "id", "name"]
    else ["location_id", "warehouse_id", "code", "airportId", "id"]
  }

  /** The trimmed value of a property, unless it is missing or blank. */
  function Identifier(properties: Properties, field: string): (r: Option<string>)
    ensures r.Some? ==> r.value != "" && Trimmed(r.value)
  {
    if field in properties && Strip(properties[field]) != "" then Some(Strip(properties[field])) else None
  }

  function KindIn(order: seq<(string, string)>, labels: set<string>): Option<string> {
    if order == [] then None
    else if order[0].0 in labels then Some(order[0].1)
    else KindIn(order[1..], labels)
  }

  function LocationKind(labels: set<string>): Option<string> {
    var kind := KindIn(LOCATION_KIND_ORDER, labels);
    if kind.Some? then kind
    else if labels * WAREHOUSE_LABELS != {} then Some("warehouse")
    else None
  }

  /** The first field that carries an identifier, with that identifier. */
  function FirstProperty(properties: Properties, fields: seq<string>): (r: Option<(string, string)>)
    ensures r.Some? ==> r.value.0 != "" && Trimmed(r.value.0) && r.value.1 in fields
  {
    if fields == [] then None
    else if Identifier(properties, fields[0]).Some? then Some((Identifier(properties, fields[0]).value, fields[0]))
    else FirstProperty(properties, fields[1..])
  }

  /** What is found is the identifier of the earliest field that has one; nothing is found when none has. */
  lemma {:induction false} FirstPropertyIsEarliest(properties: Properties, fields: seq<string>) returns (k: nat)
    ensures k <= |fields| && NoneCarries(properties, fields[..k])
    ensures k == |fields| ==> FirstProperty(properties, fields) == None
    ensures k < |fields| ==> Identifier(properties, fields[k]).Some?
    ensures k < |fields| ==>
      FirstProperty(properties, fields) == Some((Or(Identifier(properties, fields[k]), ""), fields[k]))
  {
    k := 0;
    if fields != [] && Identifier(properties, fields[0]) == None {
      k := FirstPropertyIsEarliest(properties, fields[1..]);
      NoneCarriesCons(properties, fields, k);
      k := k + 1;
    }
  }

  ghost predicate NoneCarries(properties: Properties, fields: seq<string>) {
    forall h :: 0 <= h < |fields| ==> Identifier(properties, fields[h]) == None
  }

  lemma NoneCarriesCons(properties: Properties, fields: seq<string>, k: nat)
    requires k < |fields| && Identifier(properties, fields[0]) == None && NoneCarries(properties, fields[1..][..k])
    ensures NoneCarries(properties, fields[..k + 1])
  {
    assert fields[..k + 1] == [fields[0]] + fields[1..][..k];
  }

  function Or(first: Option<string>, second: string): string {
    if first.Some? then first.value else second
  }

  // ------------------------------------------------------------------ what a node asks for

  function PreferredLocation(naming: Naming, node: Node, kind: string): string {
    var found := FirstProperty(node.properties, LocationIdFields(kind));
    if found.Some? then found.value.0 else "loc:" + kind + ":" + naming.suffix(node)
  }

  function LocationSource(node: Node, kind: string): string {
    var found := FirstProperty(node.properties, LocationIdFields(kind));
    if found == None then "generated_stable_fallback"
    else Or(Identifier(node.properties, "canonical_identity_source"), found.value.1)
  }

  function PreferredWarehouse(naming: Naming, node: Node): string {
    var found := FirstProperty(node.properties, WAREHOUSE_ID_FIELDS);
    if found.Some? then found.value.0
    else "warehouse:" + naming.slug(Or(Identifier(node.properties, "name"), naming.suffix(node)))
  }

  function WarehouseSource(node: Node): string {
    var found := FirstProperty(node.properties, WAREHOUSE_ID_FIELDS);
    if found == None then "generated_from_name"
    else Or(Identifier(node.properties, "warehouse_identity_source"), found.value.1)
  }

  function Suffixed(naming: Naming, node: Node, preferred: string): string {
    preferred + "~" + naming.short(node)
  }

  function KindOf(node: Node): string { Or(LocationKind(node.labels), "") }

  function LocationClaim(naming: Naming, node: Node): Claim {
    var preferred := PreferredLocation(naming, node, KindOf(node));
    Claim(node.elementId, preferred, Suffixed(naming, node, preferred))
  }

  function WarehouseClaim(naming: Naming, node: Node): Claim {
    Claim(node.elementId, PreferredWarehouse(naming, node), Suffixed(naming, node, PreferredWarehouse(naming, node)))
  }

  predicate KindKnown(node: Node) { LocationKind(node.labels).Some? }

  predicate IsWarehouse(node: Node) { KindOf(node) == "warehouse" }

  function LocationClaims(naming: Naming, nodes: seq<Node>): (claims: seq<Claim>)
    ensures |claims| == |nodes|
    ensures forall i :: 0 <= i < |nodes| ==> claims[i] == LocationClaim(naming, nodes[i])
  {
    seq(|nodes|, i requires 0 <= i < |nodes| => LocationClaim(naming, nodes[i]))
  }

  function Warehouses(nodes: seq<Node>): seq<Node> { Filter(nodes, (node: Node) => IsWarehouse(node)) }

  function WarehouseClaims(naming: Naming, nodes: seq<Node>): (claims: seq<Claim>)
    ensures |claims| == |Warehouses(nodes)|
    ensures forall i :: 0 <= i < |claims| ==> claims[i] == WarehouseClaim(naming, Warehouses(nodes)[i])
  {
    var warehouses := Warehouses(nodes);
    seq(|warehouses|, i requires 0 <= i < |warehouses| => WarehouseClaim(naming, warehouses[i]))
  }

  /** The location and warehouse ids a list of nodes is given, in the order of the list. */
  ghost function LocationIds(naming: Naming, nodes: seq<Node>): Ids { Assign(LocationClaims(naming, nodes)) }

  ghost function WarehouseIds(naming: Naming, nodes: seq<Node>): Ids { Assign(WarehouseClaims(naming, nodes)) }

  // ------------------------------------------------------------------ rows

  /** The properties the plan wants, made of the ids and of where they come from. */
  function DesiredOf(kind: string, preferred: string, source: string, warehouseSource: string,
                     locationId: string, warehouseId: string): Properties
  {
    map["location_id" := locationId, "location_kind" := kind, "canonical_identity_source" := source]
      + (if locationId != preferred then
           map["identity_status" := "conflict_disambiguated", "identity_conflict_key" := preferred]
         else map[])
      + (if kind == "warehouse" then map["warehouse_id" := warehouseId, "warehouse_identity_source" := warehouseSource]
         else map[])
  }

  function Desired(naming: Naming, node: Node, locationId: string, warehouseId: string): Properties {
    var kind := KindOf(node);
    DesiredOf(kind, PreferredLocation(naming, node, kind), LocationSource(node, kind), WarehouseSource(node),
              locationId, warehouseId)
  }

  function Updates(node: Node, desired: Properties): Properties {
    map key | key in desired && !(key in node.properties && node.properties[key] == desired[key]) :: desired[key]
  }

  function LabelsToAdd(node: Node): set<string> {
    ({"TransportLocation"} + if IsWarehouse(node) then {"Warehouse"} else {}) - node.labels
  }

  function RowFor(naming: Naming, node: Node, locationId: string, warehouseId: string): Row {
    Row(node.elementId, LabelsToAdd(node), Updates(node, Desired(naming, node, locationId, warehouseId)),
        locationId, KindOf(node))
  }

  predicate NeedsRow(row: Row) { row.updates != map[] || row.labelsToAdd != {} }

  /** Nodes with a location id first, then by element id. */
  predicate NodeLe(a: Node, b: Node) {
    var hasA, hasB := Identifier(a.properties, "location_id").Some?, Identifier(b.properties, "location_id").Some?;
    if hasA != hasB then hasA else StrLe(a.elementId, b.elementId)
  }

  ghost function IdOf(ids: Ids, elementId: string): string { if elementId in ids then ids[elementId] else "" }

  /** The row of a node when all nodes, in planning order, are `all`. */
  ghost function RowIn(naming: Naming, node: Node, all: seq<Node>): Row {
    RowFor(naming, node,
           IdOf(LocationIds(naming, all), node.elementId), IdOf(WarehouseIds(naming, all), node.elementId))
  }

  /** The rows of a plan: those that change something, in planning order. */
  ghost function PlannedRows(naming: Naming, nodes: seq<Node>, all: seq<Node>): seq<Row> {
    if nodes == [] then []
    else
      var n := |nodes| - 1;
      var row := RowIn(naming, nodes[n], all);
      PlannedRows(naming, nodes[..n], all) + if NeedsRow(row) then [row] else []
  }

  ghost predicate DistinctElements(nodes: seq<Node>) {
    forall i, j :: 0 <= i < j < |nodes| ==> nodes[i].elementId != nodes[j].elementId
  }

  // ------------------------------------------------------------------ planning again changes nothing

  /** The node after its row has been applied. */
  ghost function Applied(naming: Naming, node: Node, all: seq<Node>): Node {
    var row := RowIn(naming, node, all);
    Node(node.elementId, node.labels + row.labelsToAdd, node.properties + row.updates)
  }

  /** Digests and slugs are printable text. */
  ghost predicate SoundNaming(naming: Naming) {
    && (forall n :: naming.suffix(n) != "" && Trimmed(naming.suffix(n)))
    && (forall n :: naming.short(n) != "" && Trimmed(naming.short(n)))
    && (forall s :: naming.slug(s) != "" && Trimmed(naming.slug(s)))
  }

  predicate Printable(s: string) { s != "" && Trimmed(s) }

  lemma LocationWishIsPrintable(naming: Naming, node: Node)
    requires SoundNaming(naming)
    ensures Printable(LocationClaim(naming, node).preferred) && Printable(LocationClaim(naming, node).suffixed)
  {
    var kind := KindOf(node);
    JoinTrimmed("loc:", kind + ":", naming.suffix(node));
    assert "loc:" + kind + ":" + naming.suffix(node) == "loc:" + (kind + ":") + naming.suffix(node);
    JoinTrimmed(LocationClaim(naming, node).preferred, "~", naming.short(node));
  }

  lemma WarehouseWishIsPrintable(naming: Naming, node: Node)
    requires SoundNaming(naming)
    ensures Printable(WarehouseClaim(naming, node).preferred) && Printable(WarehouseClaim(naming, node).suffixed)
  {
    var name := naming.slug(Or(Identifier(node.properties, "name"), naming.suffix(node)));
    JoinTrimmed("warehouse:", "", name);
    assert "warehouse:" + name == "warehouse:" + "" + name;
    JoinTrimmed(WarehouseClaim(naming, node).preferred, "~", naming.short(node));
  }

  ghost predicate AllPrintable(fields: seq<string>) {
    forall i :: 0 <= i < |fields| ==> Printable(fields[i])
  }

  lemma WarehouseFieldsArePrintable()
    ensures AllPrintable(WAREHOUSE_ID_FIELDS)
  {
  }

  lemma PortAndAirportFieldsArePrintable(kind: string)
    requires kind == "port" || kind == "airport"
    ensures AllPrintable(LocationIdFields(kind))
  {
  }

  lemma TerminalFieldsArePrintable(kind: string)
    requires kind == "rail_terminal" || kind == "road_terminal"
    ensures AllPrintable(LocationIdFields(kind))
  {
  }

  lemma OtherFieldsArePrintable(kind: string)
    requires kind !in {"port", "airport", "rail_terminal", "road_terminal"}
    ensures AllPrintable(LocationIdFields(kind))
  {
  }

  lemma FieldsArePrintable(kind: string)
    ensures AllPrintable(LocationIdFields(kind))
  {
    if kind == "port" || kind == "airport" {
      PortAndAirportFieldsArePrintable(kind);
    } else if kind == "rail_terminal" || kind == "road_terminal" {
      TerminalFieldsArePrintable(kind);
    } else {
      OtherFieldsArePrintable(kind);
    }
  }

  lemma LocationSourceIsPrintable(node: Node)
    ensures Printable(LocationSource(node, KindOf(node)))
  {
    FieldsArePrintable(KindOf(node));
  }

  lemma WarehouseSourceIsPrintable(node: Node)
    ensures Printable(WarehouseSource(node))
  {
    WarehouseFieldsArePrintable();
  }

  lemma {:induction false} KindSurvives(order: seq<(string, string)>, labels: set<string>, more: set<string>)
    requires forall k :: 0 <= k < |order| ==> order[k].0 !in more
    ensures KindIn(order, labels + more) == KindIn(order, labels)
  {
    if order != [] {
      KindSurvives(order[1..], labels, more);
    }
  }

  lemma AppliedKind(naming: Naming, node: Node, all: seq<Node>)
    requires KindKnown(node)
    ensures KindOf(Applied(naming, node, all)) == KindOf(node)
    ensures KindKnown(Applied(naming, node, all))
    ensures LabelsToAdd(Applied(naming, node, all)) == {}
  {
    var more := LabelsToAdd(node);
    assert more <= {"TransportLocation", "Warehouse"};
    KindSurvives(LOCATION_KIND_ORDER, node.labels, more);
    if IsWarehouse(node) {
      KindIsNotWarehouse(LOCATION_KIND_ORDER, node.labels);
      assert "Warehouse" in node.labels + more;
    } else {
      assert KindIn(LOCATION_KIND_ORDER, node.labels).Some?;
    }
  }

  lemma {:induction false} KindIsNotWarehouse(order: seq<(string, string)>, labels: set<string>)
    requires forall k :: 0 <= k < |order| ==> order[k].1 != "warehouse"
    ensures KindIn(order, labels) != Some("warehouse")
  {
    if order != [] {
      KindIsNotWarehouse(order[1..], labels);
    }
  }

  lemma AppliedHasDesired(node: Node, desired: Properties, key: string)
    requires key in desired
    ensures key in node.properties + Updates(node, desired)
    ensures (node.properties + Updates(node, desired))[key] == desired[key]
  {
  }

  lemma DesiredOfFields(kind: string, preferred: string, source: string, warehouseSource: string,
                        locationId: string, warehouseId: string)
    ensures var desired := DesiredOf(kind, preferred, source, warehouseSource, locationId, warehouseId);
      && "location_id" in desired && desired["location_id"] == locationId
      && "location_kind" in desired && desired["location_kind"] == kind
      && "canonical_identity_source" in desired && desired["canonical_identity_source"] == source
  {
  }

  lemma DesiredOfWarehouse(preferred: string, source: string, warehouseSource: string,
                           locationId: string, warehouseId: string)
    ensures var desired := DesiredOf("warehouse", preferred, source, warehouseSource, locationId, warehouseId);
      && "warehouse_id" in desired && desired["warehouse_id"] == warehouseId
      && "warehouse_identity_source" in desired && desired["warehouse_identity_source"] == warehouseSource
  {
  }

  lemma DesiredOfNoConflict(kind: string, source: string, warehouseSource: string,
                            locationId: string, warehouseId: string, key: string)
    requires key in DesiredOf(kind, locationId, source, warehouseSource, locationId, warehouseId)
    ensures key in {"location_id", "location_kind", "canonical_identity_source"}
      || (kind == "warehouse" && key in {"warehouse_id", "warehouse_identity_source"})
  {
  }

  /** What the plan always sets, and that nothing it sets besides overwrites it. */
  lemma DesiredFields(naming: Naming, node: Node, locationId: string, warehouseId: string)
    ensures var desired := Desired(naming, node, locationId, warehouseId);
      && "location_id" in desired && desired["location_id"] == locationId
      && "location_kind" in desired && desired["location_kind"] == KindOf(node)
      && "canonical_identity_source" in desired
      && desired["canonical_identity_source"] == LocationSource(node, KindOf(node))
  {
    var kind := KindOf(node);
    DesiredOfFields(kind, PreferredLocation(naming, node, kind), LocationSource(node, kind), WarehouseSource(node),
                    locationId, warehouseId);
  }

  lemma DesiredWarehouseFields(naming: Naming, node: Node, locationId: string, warehouseId: string)
    requires IsWarehouse(node)
    ensures var desired := Desired(naming, node, locationId, warehouseId);
      && "warehouse_id" in desired && desired["warehouse_id"] == warehouseId
      && "warehouse_identity_source" in desired && desired["warehouse_identity_source"] == WarehouseSource(node)
  {
    var kind := KindOf(node);
    DesiredOfWarehouse(PreferredLocation(naming, node, kind), LocationSource(node, kind), WarehouseSource(node),
                       locationId, warehouseId);
  }

  /** Without a conflict the plan sets just those fields. */
  lemma DesiredWithoutConflict(naming: Naming, node: Node, warehouseId: string, key: string)
    requires key in Desired(naming, node, PreferredLocation(naming, node, KindOf(node)), warehouseId)
    ensures key in {"location_id", "location_kind", "canonical_identity_source"}
      || (IsWarehouse(node) && key in {"warehouse_id", "warehouse_identity_source"})
  {
    var kind := KindOf(node);
    DesiredOfNoConflict(kind, LocationSource(node, kind), WarehouseSource(node),
                        PreferredLocation(naming, node, kind), warehouseId, key);
  }

  lemma CarriedIdentifier(properties: Properties, field: string, value: string)
    requires field in properties && properties[field] == value && Printable(value)
    ensures Identifier(properties, field) == Some(value)
  {
    StripTrimmed(value);
  }

  /** The properties carry every field with the value the plan wants. */
  ghost predicate Carries(properties: Properties, desired: Properties) {
    forall key :: key in desired ==> key in properties && properties[key] == desired[key]
  }

  lemma AppliedCarriesDesired(node: Node, desired: Properties)
    ensures Carries(node.properties + Updates(node, desired), desired)
  {
    forall key | key in desired ensures key in node.properties + Updates(node, desired)
      && (node.properties + Updates(node, desired))[key] == desired[key]
    {
      AppliedHasDesired(node, desired, key);
    }
  }

  /** After its row is applied, a node asks for exactly the location id it was given, under the same source. */
  lemma AppliedLocationWish(naming: Naming, node: Node, after: Node, locationId: string, warehouseId: string)
    requires Carries(after.properties, Desired(naming, node, locationId, warehouseId))
    requires Printable(locationId)
    ensures PreferredLocation(naming, after, KindOf(after)) == locationId
    ensures LocationSource(after, KindOf(after)) == LocationSource(node, KindOf(node))
  {
    DesiredFields(naming, node, locationId, warehouseId);
    LocationSourceIsPrintable(node);
    CarriedIdentifier(after.properties, "location_id", locationId);
    CarriedIdentifier(after.properties, "canonical_identity_source", LocationSource(node, KindOf(node)));
  }

  lemma AppliedWarehouseWish(naming: Naming, node: Node, after: Node, locationId: string, warehouseId: string)
    requires Carries(after.properties, Desired(naming, node, locationId, warehouseId))
    requires IsWarehouse(node) && Printable(warehouseId)
    ensures PreferredWarehouse(naming, after) == warehouseId
    ensures WarehouseSource(after) == WarehouseSource(node)
  {
    DesiredWarehouseFields(naming, node, locationId, warehouseId);
    WarehouseSourceIsPrintable(node);
    CarriedIdentifier(after.properties, "warehouse_id", warehouseId);
    CarriedIdentifier(after.properties, "warehouse_identity_source", WarehouseSource(node));
  }

  /** What a second plan wants is what the first one set. */
  lemma SecondDesiredIsCarried(naming: Naming, node: Node, after: Node, locationId: string, warehouseId: string)
    requires Carries(after.properties, Desired(naming, node, locationId, warehouseId))
    requires KindOf(after) == KindOf(node) && Printable(locationId)
    requires IsWarehouse(node) ==> Printable(warehouseId)
    ensures Carries(after.properties, Desired(naming, after, locationId, warehouseId))
  {
    AppliedLocationWish(naming, node, after, locationId, warehouseId);
    DesiredFields(naming, node, locationId, warehouseId);
    DesiredFields(naming, after, locationId, warehouseId);
    if IsWarehouse(node) {
      AppliedWarehouseWish(naming, node, after, locationId, warehouseId);
      DesiredWarehouseFields(naming, node, locationId, warehouseId);
      DesiredWarehouseFields(naming, after, locationId, warehouseId);
    }
    var second := Desired(naming, after, locationId, warehouseId);
    forall key | key in second ensures key in after.properties && after.properties[key] == second[key] {
      DesiredWithoutConflict(naming, after, warehouseId, key);
    }
  }

  /** A node that is given again what it already carries needs no row. */
  lemma AppliedNeedsNoRow(naming: Naming, node: Node, all: seq<Node>)
    requires KindKnown(node)
    requires Printable(IdOf(LocationIds(naming, all), node.elementId))
    requires IsWarehouse(node) ==> Printable(IdOf(WarehouseIds(naming, all), node.elementId))
    ensures !NeedsRow(RowFor(naming, Applied(naming, node, all),
                             IdOf(LocationIds(naming, all), node.elementId),
                             IdOf(WarehouseIds(naming, all), node.elementId)))
  {
    var locationId := IdOf(LocationIds(naming, all), node.elementId);
    var warehouseId := IdOf(WarehouseIds(naming, all), node.elementId);
    var after := Applied(naming, node, all);
    AppliedKind(naming, node, all);
    AppliedCarriesDesired(node, Desired(naming, node, locationId, warehouseId));
    SecondDesiredIsCarried(naming, node, after, locationId, warehouseId);
    CarriedNeedsNoRow(naming, after, locationId, warehouseId);
  }

  lemma CarriedNeedsNoRow(naming: Naming, node: Node, locationId: string, warehouseId: string)
    requires LabelsToAdd(node) == {} && Carries(node.properties, Desired(naming, node, locationId, warehouseId))
    ensures !NeedsRow(RowFor(naming, node, locationId, warehouseId))
  {
    assert Updates(node, Desired(naming, node, locationId, warehouseId)) == map[];
  }

  /** The elements of a filtered list keep their distinct ids. */
  lemma {:induction false} FilteredElementsDistinct(nodes: seq<Node>, keep: Node -> bool)
    requires DistinctElements(nodes)
    ensures DistinctElements(Filter(nodes, keep))
  {
    if nodes != [] {
      FilteredElementsDistinct(nodes[1..], keep);
      var rest := Filter(nodes[1..], keep);
      forall j | 0 <= j < |rest| ensures rest[j].elementId != nodes[0].elementId {
        assert rest[j] in nodes[1..];
      }
    }
  }

  lemma ClaimsHaveDistinctOwners(naming: Naming, nodes: seq<Node>)
    requires DistinctElements(nodes)
    ensures DistinctOwners(LocationClaims(naming, nodes)) && DistinctOwners(WarehouseClaims(naming, nodes))
  {
    FilteredElementsDistinct(nodes, (node: Node) => IsWarehouse(node));
  }

  /** Every node is given a printable location id, and every warehouse a printable warehouse id. */
  lemma IdsArePrintable(naming: Naming, all: seq<Node>, node: Node)
    requires SoundNaming(naming) && DistinctElements(all) && node in all
    ensures node.elementId in LocationIds(naming, all) && Printable(LocationIds(naming, all)[node.elementId])
    ensures IsWarehouse(node) ==>
      node.elementId in WarehouseIds(naming, all) && Printable(WarehouseIds(naming, all)[node.elementId])
  {
    LocationIdIsPrintable(naming, all, node);
    if IsWarehouse(node) { WarehouseIdIsPrintable(naming, all, node); }
  }

  lemma LocationIdIsPrintable(naming: Naming, all: seq<Node>, node: Node)
    requires SoundNaming(naming) && DistinctElements(all) && node in all
    ensures node.elementId in LocationIds(naming, all) && Printable(LocationIds(naming, all)[node.elementId])
  {
    ClaimsHaveDistinctOwners(naming, all);
    LocationWishIsPrintable(naming, node);
    var i :| 0 <= i < |all| && all[i] == node;
    AssignedId(LocationClaims(naming, all), i);
  }

  lemma WarehouseIdIsPrintable(naming: Naming, all: seq<Node>, node: Node)
    requires SoundNaming(naming) && DistinctElements(all) && node in all && IsWarehouse(node)
    ensures node.elementId in WarehouseIds(naming, all) && Printable(WarehouseIds(naming, all)[node.elementId])
  {
    ClaimsHaveDistinctOwners(naming, all);
    WarehouseWishIsPrintable(naming, node);
    assert node in Warehouses(all);
    var j :| 0 <= j < |Warehouses(all)| && Warehouses(all)[j] == node;
    AssignedId(WarehouseClaims(naming, all), j);
  }

  /** `again` are the nodes of `all` after the plan was applied, in any order. */
  ghost predicate AppliedAll(naming: Naming, all: seq<Node>, again: seq<Node>) {
    && DistinctElements(again)
    && forall i :: 0 <= i < |again| ==> IsApplied(naming, all, again[i])
  }

  ghost predicate IsApplied(naming: Naming, all: seq<Node>, after: Node) {
    exists node :: node in all && after == Applied(naming, node, all)
  }

  ghost predicate KindsKnown(nodes: seq<Node>) {
    forall i :: 0 <= i < |nodes| ==> KindKnown(nodes[i])
  }

  /** What an applied node asks for. */
  lemma AppliedClaims(naming: Naming, all: seq<Node>, after: Node) returns (node: Node)
    requires SoundNaming(naming) && DistinctElements(all) && KindsKnown(all) && IsApplied(naming, all, after)
    ensures node in all && after == Applied(naming, node, all) && KindKnown(node)
    ensures after.elementId == node.elementId && KindOf(after) == KindOf(node)
    ensures after.elementId in LocationIds(naming, all)
    ensures LocationClaim(naming, after).preferred == LocationIds(naming, all)[after.elementId]
    ensures IsWarehouse(after) ==> after.elementId in WarehouseIds(naming, all)
    ensures IsWarehouse(after) ==> WarehouseClaim(naming, after).preferred == WarehouseIds(naming, all)[after.elementId]
  {
    node :| node in all && after == Applied(naming, node, all);
    var i :| 0 <= i < |all| && all[i] == node;
    IdsArePrintable(naming, all, node);
    AppliedKind(naming, node, all);
    var locationId := IdOf(LocationIds(naming, all), node.elementId);
    var warehouseId := IdOf(WarehouseIds(naming, all), node.elementId);
    AppliedCarriesDesired(node, Desired(naming, node, locationId, warehouseId));
    AppliedLocationWish(naming, node, after, locationId, warehouseId);
    if IsWarehouse(node) {
      AppliedWarehouseWish(naming, node, after, locationId, warehouseId);
    }
  }

  /** Planning again gives every node the ids it was given before. */
  lemma SameIdsAgain(naming: Naming, all: seq<Node>, again: seq<Node>, after: Node)
    requires SoundNaming(naming) && DistinctElements(all) && KindsKnown(all) && AppliedAll(naming, all, again)
    requires DistinctIds(LocationIds(naming, all)) && DistinctIds(WarehouseIds(naming, all))
    requires after in again
    ensures after.elementId in LocationIds(naming, all) && after.elementId in LocationIds(naming, again)
    ensures LocationIds(naming, again)[after.elementId] == LocationIds(naming, all)[after.elementId]
    ensures IsWarehouse(after) ==>
      after.elementId in WarehouseIds(naming, all) && after.elementId in WarehouseIds(naming, again)
      && WarehouseIds(naming, again)[after.elementId] == WarehouseIds(naming, all)[after.elementId]
  {
    ClaimsHaveDistinctOwners(naming, again);
    var claims := LocationClaims(naming, again);
    forall a, b | 0 <= a < b < |claims| ensures claims[a].preferred != claims[b].preferred {
      var nodeA := AppliedClaims(naming, all, again[a]);
      var nodeB := AppliedClaims(naming, all, again[b]);
      assert !SameId(LocationIds(naming, all), again[a].elementId, again[b].elementId);
    }
    var i :| 0 <= i < |again| && again[i] == after;
    var node := AppliedClaims(naming, all, after);
    DistinctWishesAreGranted(claims, i);
    if IsWarehouse(after) {
      SameWarehouseIdAgain(naming, all, again, after);
    }
  }

  lemma DifferentWarehouseWishes(naming: Naming, all: seq<Node>, a: Node, b: Node)
    requires SoundNaming(naming) && DistinctElements(all) && KindsKnown(all)
    requires IsApplied(naming, all, a) && IsApplied(naming, all, b) && IsWarehouse(a) && IsWarehouse(b)
    requires DistinctIds(WarehouseIds(naming, all)) && a.elementId != b.elementId
    ensures WarehouseClaim(naming, a).preferred != WarehouseClaim(naming, b).preferred
  {
    var nodeA := AppliedClaims(naming, all, a);
    var nodeB := AppliedClaims(naming, all, b);
    assert !SameId(WarehouseIds(naming, all), a.elementId, b.elementId);
  }

  lemma WarehousesAreApplied(naming: Naming, all: seq<Node>, again: seq<Node>)
    requires AppliedAll(naming, all, again)
    ensures DistinctElements(Warehouses(again))
    ensures forall w :: w in Warehouses(again) ==> IsApplied(naming, all, w) && IsWarehouse(w)
  {
    FilteredElementsDistinct(again, (node: Node) => IsWarehouse(node));
  }

  lemma WarehouseWishesDiffer(naming: Naming, all: seq<Node>, warehouses: seq<Node>, a: nat, b: nat)
    requires SoundNaming(naming) && DistinctElements(all) && KindsKnown(all) && DistinctIds(WarehouseIds(naming, all))
    requires DistinctElements(warehouses) && a < b < |warehouses|
    requires forall w :: w in warehouses ==> IsApplied(naming, all, w) && IsWarehouse(w)
    ensures WarehouseClaim(naming, warehouses[a]).preferred != WarehouseClaim(naming, warehouses[b]).preferred
  {
    assert warehouses[a] in warehouses && warehouses[b] in warehouses;
    DifferentWarehouseWishes(naming, all, warehouses[a], warehouses[b]);
  }

  lemma SameWarehouseIdAgain(naming: Naming, all: seq<Node>, again: seq<Node>, after: Node)
    requires SoundNaming(naming) && DistinctElements(all) && KindsKnown(all) && AppliedAll(naming, all, again)
    requires DistinctIds(WarehouseIds(naming, all)) && DistinctOwners(WarehouseClaims(naming, again))
    requires after in again && IsWarehouse(after)
    ensures after.elementId in WarehouseIds(naming, all) && after.elementId in WarehouseIds(naming, again)
    ensures WarehouseIds(naming, again)[after.elementId] == WarehouseIds(naming, all)[after.elementId]
  {
    WarehousesAreApplied(naming, all, again);
    forall a, b | 0 <= a < b < |Warehouses(again)|
      ensures WarehouseClaims(naming, again)[a].preferred != WarehouseClaims(naming, again)[b].preferred
    {
      WarehouseWishesDiffer(naming, all, Warehouses(again), a, b);
    }
    WarehouseWishIsGranted(naming, again, after);
    var node := AppliedClaims(naming, all, after);
  }

  lemma WarehouseWishIsGranted(naming: Naming, nodes: seq<Node>, node: Node)
    requires DistinctOwners(WarehouseClaims(naming, nodes)) && node in nodes && IsWarehouse(node)
    requires forall a, b :: 0 <= a < b < |WarehouseClaims(naming, nodes)| ==>
      WarehouseClaims(naming, nodes)[a].preferred != WarehouseClaims(naming, nodes)[b].preferred
    ensures node.elementId in WarehouseIds(naming, nodes)
    ensures WarehouseIds(naming, nodes)[node.elementId] == WarehouseClaim(naming, node).preferred
  {
    assert node in Warehouses(nodes);
    var j :| 0 <= j < |Warehouses(nodes)| && Warehouses(nodes)[j] == node;
    DistinctWishesAreGranted(WarehouseClaims(naming, nodes), j);
  }

  lemma {:induction false} NoRowsPlanned(naming: Naming, nodes: seq<Node>, all: seq<Node>)
    requires forall i :: 0 <= i < |nodes| ==> !NeedsRow(RowIn(naming, nodes[i], all))
    ensures PlannedRows(naming, nodes, all) == []
  {
    if nodes != [] {
      NoRowsPlanned(naming, nodes[..|nodes| - 1], all);
    }
  }

  /** When the assigned ids are distinct, planning again after applying the rows yields no rows. */
  lemma PlanIsIdempotent(naming: Naming, all: seq<Node>, again: seq<Node>)
    requires SoundNaming(naming) && DistinctElements(all) && KindsKnown(all) && AppliedAll(naming, all, again)
    requires DistinctIds(LocationIds(naming, all)) && DistinctIds(WarehouseIds(naming, all))
    ensures PlannedRows(naming, again, again) == []
  {
    forall i | 0 <= i < |again| ensures !NeedsRow(RowIn(naming, again[i], again)) {
      var after := again[i];
      var node := AppliedClaims(naming, all, after);
      SameIdsAgain(naming, all, again, after);
      IdsArePrintable(naming, all, node);
      AppliedNeedsNoRow(naming, node, all);
      if !IsWarehouse(after) {
        WarehouseIdIsUnused(naming, after, IdOf(LocationIds(naming, all), node.elementId),
                            IdOf(WarehouseIds(naming, all), node.elementId),
                            IdOf(WarehouseIds(naming, again), node.elementId));
      }
    }
    NoRowsPlanned(naming, again, again);
  }

  lemma WarehouseIdIsUnused(naming: Naming, node: Node, locationId: string, one: string, other: string)
    requires !IsWarehouse(node)
    ensures RowFor(naming, node, locationId, one) == RowFor(naming, node, locationId, other)
  {
  }

  lemma {:induction false} SomeRowPlanned(naming: Naming, nodes: seq<Node>, all: seq<Node>, i: nat)
    requires i < |nodes| && NeedsRow(RowIn(naming, nodes[i], all))
    ensures PlannedRows(naming, nodes, all) != []
  {
    if i < |nodes| - 1 {
      SomeRowPlanned(naming, nodes[..|nodes| - 1], all, i);
    }
  }

  /** Two nodes left with one location id: the later of them is disambiguated when planning again. */
  lemma {:induction false} SharedLocationIdReplans(naming: Naming, all: seq<Node>, again: seq<Node>, i: nat, j: nat)
    requires SoundNaming(naming) && DistinctElements(all) && KindsKnown(all) && AppliedAll(naming, all, again)
    requires i < j < |again| && SameId(LocationIds(naming, all), again[i].elementId, again[j].elementId)
    ensures PlannedRows(naming, again, again) != []
  {
    var claims := LocationClaims(naming, again);
    ClaimsHaveDistinctOwners(naming, again);
    var nodeI := AppliedClaims(naming, all, again[i]);
    var nodeJ := AppliedClaims(naming, all, again[j]);
    ClaimantTakes(claims, i, j);
    AssignedId(claims, j);
    var row := RowIn(naming, again[j], again);
    DesiredFields(naming, again[j], row.locationId, IdOf(WarehouseIds(naming, again), again[j].elementId));
    assert row.locationId == claims[j].suffixed != claims[j].preferred;
    LocationIdIsCarried(naming, all, nodeJ);
    assert "location_id" in row.updates;
    SomeRowPlanned(naming, again, again, j);
  }

  lemma LocationIdIsCarried(naming: Naming, all: seq<Node>, node: Node)
    ensures var after := Applied(naming, node, all);
      "location_id" in after.properties
      && after.properties["location_id"] == IdOf(LocationIds(naming, all), node.elementId)
  {
    var locationId := IdOf(LocationIds(naming, all), node.elementId);
    var warehouseId := IdOf(WarehouseIds(naming, all), node.elementId);
    DesiredFields(naming, node, locationId, warehouseId);
    AppliedHasDesired(node, Desired(naming, node, locationId, warehouseId), "location_id");
  }

  /** Every node of `all` is among those planned again. */
  ghost predicate Covers(all: seq<Node>, again: seq<Node>) {
    forall node {:trigger HasElement(again, node.elementId)} :: node in all ==> HasElement(again, node.elementId)
  }

  ghost predicate HasElement(nodes: seq<Node>, elementId: string) {
    exists i :: 0 <= i < |nodes| && nodes[i].elementId == elementId
  }

  /** The later of two warehouses that ask for one id is given the suffixed form instead. */
  lemma SharedWarehouseWish(naming: Naming, nodes: seq<Node>, i: nat, j: nat)
    requires DistinctElements(nodes) && i < j < |Warehouses(nodes)|
    requires WarehouseClaim(naming, Warehouses(nodes)[i]).preferred
      == WarehouseClaim(naming, Warehouses(nodes)[j]).preferred
    ensures IdOf(WarehouseIds(naming, nodes), Warehouses(nodes)[j].elementId)
      == WarehouseClaim(naming, Warehouses(nodes)[j]).suffixed != WarehouseClaim(naming, Warehouses(nodes)[j]).preferred
  {
    var claims := WarehouseClaims(naming, nodes);
    ClaimsHaveDistinctOwners(naming, nodes);
    ClaimantTakes(claims, i, j);
    AssignedId(claims, j);
  }

  lemma WarehouseIdIsCarried(naming: Naming, all: seq<Node>, node: Node)
    requires IsWarehouse(node)
    ensures var after := Applied(naming, node, all);
      "warehouse_id" in after.properties
      && after.properties["warehouse_id"] == IdOf(WarehouseIds(naming, all), node.elementId)
  {
    var locationId := IdOf(LocationIds(naming, all), node.elementId);
    var warehouseId := IdOf(WarehouseIds(naming, all), node.elementId);
    DesiredWarehouseFields(naming, node, locationId, warehouseId);
    AppliedHasDesired(node, Desired(naming, node, locationId, warehouseId), "warehouse_id");
  }

  /** A warehouse that is given another id than it carries needs a row. */
  lemma NewWarehouseIdNeedsRow(naming: Naming, node: Node, all: seq<Node>)
    requires IsWarehouse(node) && "warehouse_id" in node.properties
    requires node.properties["warehouse_id"] != IdOf(WarehouseIds(naming, all), node.elementId)
    ensures NeedsRow(RowIn(naming, node, all))
  {
    var row := RowIn(naming, node, all);
    DesiredWarehouseFields(naming, node, row.locationId, IdOf(WarehouseIds(naming, all), node.elementId));
    assert "warehouse_id" in row.updates;
  }

  /** Two warehouses left with one warehouse id: the later of them is disambiguated when planning again. */
  lemma {:induction false} SharedWarehouseIdReplans(naming: Naming, all: seq<Node>, again: seq<Node>, i: nat, j: nat)
    requires SoundNaming(naming) && DistinctElements(all) && KindsKnown(all) && AppliedAll(naming, all, again)
    requires i < j < |Warehouses(again)|
    requires SameId(WarehouseIds(naming, all), Warehouses(again)[i].elementId, Warehouses(again)[j].elementId)
    ensures PlannedRows(naming, again, again) != []
  {
    var warehouses := Warehouses(again);
    WarehousesAreApplied(naming, all, again);
    assert warehouses[i] in warehouses && warehouses[j] in warehouses;
    var nodeI := AppliedClaims(naming, all, warehouses[i]);
    var nodeJ := AppliedClaims(naming, all, warehouses[j]);
    SharedWarehouseWish(naming, again, i, j);
    WarehouseIdIsCarried(naming, all, nodeJ);
    NewWarehouseIdNeedsRow(naming, warehouses[j], again);
    var k :| 0 <= k < |again| && again[k] == warehouses[j];
    SomeRowPlanned(naming, again, again, k);
  }

  /** Planning again after applying the rows is empty exactly when all ids came out distinct. */
  lemma PlanIsIdempotentIff(naming: Naming, all: seq<Node>, again: seq<Node>)
    requires SoundNaming(naming) && DistinctElements(all) && KindsKnown(all)
    requires AppliedAll(naming, all, again) && Covers(all, again)
    ensures PlannedRows(naming, again, again) == [] <==>
      DistinctIds(LocationIds(naming, all)) && DistinctIds(WarehouseIds(naming, all))
  {
    if !DistinctIds(LocationIds(naming, all)) {
      var i, j := SharersPlannedAgain(naming, all, again);
      SharedLocationIdReplans(naming, all, again, i, j);
    } else if !DistinctIds(WarehouseIds(naming, all)) {
      var i, j := WarehouseSharersPlannedAgain(naming, all, again);
      SharedWarehouseIdReplans(naming, all, again, i, j);
    } else {
      PlanIsIdempotent(naming, all, again);
    }
  }

  lemma SharersPlannedAgain(naming: Naming, all: seq<Node>, again: seq<Node>) returns (i: nat, j: nat)
    requires Covers(all, again) && !DistinctIds(LocationIds(naming, all))
    ensures i < j < |again| && SameId(LocationIds(naming, all), again[i].elementId, again[j].elementId)
  {
    var a, b :| SameId(LocationIds(naming, all), a, b) && a != b;
    var k := PlannedAgain(naming, all, again, a);
    var l := PlannedAgain(naming, all, again, b);
    i, j := InOrder(again, LocationIds(naming, all), k, l);
  }

  lemma PlannedAgain(naming: Naming, all: seq<Node>, again: seq<Node>, elementId: string) returns (i: nat)
    requires Covers(all, again) && elementId in LocationIds(naming, all)
    ensures i < |again| && again[i].elementId == elementId
  {
    var h := ClaimOf(LocationClaims(naming, all), elementId);
    assert all[h] in all && HasElement(again, all[h].elementId);
    i :| 0 <= i < |again| && again[i].elementId == elementId;
  }

  lemma WarehouseSharersPlannedAgain(naming: Naming, all: seq<Node>, again: seq<Node>) returns (i: nat, j: nat)
    requires DistinctElements(all) && KindsKnown(all) && AppliedAll(naming, all, again) && Covers(all, again)
    requires !DistinctIds(WarehouseIds(naming, all))
    ensures i < j < |Warehouses(again)|
    ensures SameId(WarehouseIds(naming, all), Warehouses(again)[i].elementId, Warehouses(again)[j].elementId)
  {
    var a, b :| SameId(WarehouseIds(naming, all), a, b) && a != b;
    var k := WarehousePlannedAgain(naming, all, again, a);
    var l := WarehousePlannedAgain(naming, all, again, b);
    i, j := InOrder(Warehouses(again), WarehouseIds(naming, all), k, l);
  }

  lemma InOrder(nodes: seq<Node>, ids: Ids, k: nat, l: nat) returns (i: nat, j: nat)
    requires k < |nodes| && l < |nodes| && nodes[k].elementId != nodes[l].elementId
    requires SameId(ids, nodes[k].elementId, nodes[l].elementId)
    ensures i < j < |nodes| && SameId(ids, nodes[i].elementId, nodes[j].elementId)
  {
    i, j := k, l;
    if j < i { i, j := j, i; }
  }

  lemma WarehousePlannedAgain(naming: Naming, all: seq<Node>, again: seq<Node>, elementId: string) returns (i: nat)
    requires DistinctElements(all) && KindsKnown(all) && AppliedAll(naming, all, again) && Covers(all, again)
    requires elementId in WarehouseIds(naming, all)
    ensures i < |Warehouses(again)| && Warehouses(again)[i].elementId == elementId
  {
    var node := WarehouseWithId(naming, all, elementId);
    var after := AppliedWithId(naming, all, again, node);
    AppliedStaysWarehouse(naming, all, after, node);
    i := WarehousePosition(again, after);
  }

  lemma WarehouseWithId(naming: Naming, all: seq<Node>, elementId: string) returns (node: Node)
    requires elementId in WarehouseIds(naming, all)
    ensures node in all && IsWarehouse(node) && node.elementId == elementId
  {
    var h := ClaimOf(WarehouseClaims(naming, all), elementId);
    node := Warehouses(all)[h];
    assert node in Warehouses(all);
  }

  lemma AppliedWithId(naming: Naming, all: seq<Node>, again: seq<Node>, node: Node) returns (after: Node)
    requires AppliedAll(naming, all, again) && Covers(all, again) && node in all
    ensures after in again && IsApplied(naming, all, after) && after.elementId == node.elementId
  {
    assert HasElement(again, node.elementId);
    var k :| 0 <= k < |again| && again[k].elementId == node.elementId;
    after := again[k];
  }

  lemma WarehousePosition(nodes: seq<Node>, node: Node) returns (i: nat)
    requires node in nodes && IsWarehouse(node)
    ensures i < |Warehouses(nodes)| && Warehouses(nodes)[i] == node
  {
    assert node in Warehouses(nodes);
    i :| 0 <= i < |Warehouses(nodes)| && Warehouses(nodes)[i] == node;
  }

  lemma AppliedStaysWarehouse(naming: Naming, all: seq<Node>, after: Node, node: Node)
    requires DistinctElements(all) && KindsKnown(all) && IsApplied(naming, all, after)
    requires node in all && IsWarehouse(node) && after.elementId == node.elementId
    ensures IsWarehouse(after)
  {
    var origin :| origin in all && after == Applied(naming, origin, all);
    var i :| 0 <= i < |all| && all[i] == origin;
    var j :| 0 <= j < |all| && all[j] == node;
    assert i == j;
    AppliedKind(naming, node, all);
  }

  /** The short digests that disambiguate these nodes have one length and do not collide. */
  ghost predicate DistinctShorts(naming: Naming, nodes: seq<Node>) {
    && (forall n :: |naming.short(n)| == 8)
    && forall i, j :: 0 <= i < j < |nodes| ==> naming.short(nodes[i]) != naming.short(nodes[j])
  }

  lemma SuffixesTellApart(naming: Naming, a: Node, b: Node)
    requires |naming.short(a)| == |naming.short(b)| && naming.short(a) != naming.short(b)
    ensures LocationClaim(naming, a).suffixed != LocationClaim(naming, b).suffixed
    ensures WarehouseClaim(naming, a).suffixed != WarehouseClaim(naming, b).suffixed
  {
    TailsDiffer(LocationClaim(naming, a).preferred + "~", LocationClaim(naming, b).preferred + "~",
                naming.short(a), naming.short(b));
    TailsDiffer(WarehouseClaim(naming, a).preferred + "~", WarehouseClaim(naming, b).preferred + "~",
                naming.short(a), naming.short(b));
  }

  lemma ClaimsHaveDistinctSuffixes(naming: Naming, nodes: seq<Node>)
    requires DistinctElements(nodes) && DistinctShorts(naming, nodes)
    ensures DistinctSuffixes(LocationClaims(naming, nodes)) && DistinctSuffixes(WarehouseClaims(naming, nodes))
  {
    forall i, j | 0 <= i < j < |nodes|
      ensures LocationClaims(naming, nodes)[i].suffixed != LocationClaims(naming, nodes)[j].suffixed
    {
      SuffixesTellApart(naming, nodes[i], nodes[j]);
    }
    var warehouses := Warehouses(nodes);
    FilteredElementsDistinct(nodes, (node: Node) => IsWarehouse(node));
    forall i, j | 0 <= i < j < |warehouses|
      ensures WarehouseClaims(naming, nodes)[i].suffixed != WarehouseClaims(naming, nodes)[j].suffixed
    {
      DifferentShorts(naming, nodes, warehouses[i], warehouses[j]);
      SuffixesTellApart(naming, warehouses[i], warehouses[j]);
    }
  }

  lemma DifferentShorts(naming: Naming, nodes: seq<Node>, a: Node, b: Node)
    requires DistinctShorts(naming, nodes) && a in nodes && b in nodes && a != b
    ensures naming.short(a) != naming.short(b)
  {
    var i :| 0 <= i < |nodes| && nodes[i] == a;
    var j :| 0 <= j < |nodes| && nodes[j] == b;
    assert naming.short(nodes[i]) != naming.short(nodes[j]);
  }

  /**
   * The condition read off the nodes before planning: no node crowded out of its preferred id has a
   * suffixed form that an earlier node prefers, neither among locations nor among warehouses.
   */
  lemma PlanIsIdempotentIffNoClash(naming: Naming, all: seq<Node>, again: seq<Node>)
    requires SoundNaming(naming) && DistinctElements(all) && KindsKnown(all) && DistinctShorts(naming, all)
    requires AppliedAll(naming, all, again) && Covers(all, again)
    ensures PlannedRows(naming, again, again) == [] <==>
      (forall i, j :: !Clash(LocationClaims(naming, all), i, j))
      && (forall i, j :: !Clash(WarehouseClaims(naming, all), i, j))
  {
    PlanIsIdempotentIff(naming, all, again);
    ClaimsHaveDistinctOwners(naming, all);
    ClaimsHaveDistinctSuffixes(naming, all);
    DistinctIff(LocationClaims(naming, all));
    DistinctIff(WarehouseClaims(naming, all));
  }

  // ------------------------------------------------------------------ kinds and preferred ids

  lemma KindInFrom(order: seq<(string, string)>, labels: set<string>, k: nat)
    requires k < |order|
    ensures KindIn(order[k..], labels)
      == if order[k].0 in labels then Some(order[k].1) else KindIn(order[k + 1..], labels)
  {
    assert order[k..][1..] == order[k + 1..];
  }

  /** The first label that names a kind decides. */
  lemma KindInOrder(labels: set<string>)
    ensures KindIn(LOCATION_KIND_ORDER, labels) ==
      if "Port" in labels then Some("port")
      else if "Airport" in labels then Some("airport")
      else if "RailTerminal" in labels then Some("rail_terminal")
      else if "RoadTerminal" in labels then Some("road_terminal")
      else if "Factory" in labels then Some("factory")
      else None
  {
    assert LOCATION_KIND_ORDER[0..] == LOCATION_KIND_ORDER;
    KindInFrom(LOCATION_KIND_ORDER, labels, 0);
    KindInFrom(LOCATION_KIND_ORDER, labels, 1);
    KindInFrom(LOCATION_KIND_ORDER, labels, 2);
    KindInFrom(LOCATION_KIND_ORDER, labels, 3);
    KindInFrom(LOCATION_KIND_ORDER, labels, 4);
  }

  ghost predicate CarriesWarehouseLabel(labels: set<string>) {
    "Warehouse" in labels || "ExportWarehouse" in labels || "OverseasWarehouse" in labels
    || "DepartureWarehouse" in labels || "ArrivalWarehouse" in labels
  }

  /** A warehouse is what carries a warehouse label and none that names another kind. */
  lemma WarehouseTells(node: Node)
    ensures IsWarehouse(node) <==>
      KindIn(LOCATION_KIND_ORDER, node.labels) == None && CarriesWarehouseLabel(node.labels)
  {
    KindInOrder(node.labels);
    if node.labels * WAREHOUSE_LABELS != {} {
      var one :| one in node.labels * WAREHOUSE_LABELS;
    }
    assert forall one :: one in WAREHOUSE_LABELS && one in node.labels ==> one in node.labels * WAREHOUSE_LABELS;
  }

  /** The identifier in the field, or else the alternative. */
  ghost function Given(node: Node, field: string, otherwise: string): string {
    Or(Identifier(node.properties, field), otherwise)
  }

  lemma FirstOr(node: Node, fields: seq<string>, otherwise: string)
    requires fields != []
    ensures FoundOr(node, fields, otherwise) == Given(node, fields[0], FoundOr(node, fields[1..], otherwise))
  {
  }

  /** The value of the first field that carries an identifier, or else the alternative. */
  ghost function FoundOr(node: Node, fields: seq<string>, otherwise: string): string {
    var found := FirstProperty(node.properties, fields);
    if found.Some? then found.value.0 else otherwise
  }

  lemma FirstOf4(node: Node, fields: seq<string>, otherwise: string)
    requires |fields| == 4
    ensures FoundOr(node, fields, otherwise) ==
      Given(node, fields[0], Given(node, fields[1], Given(node, fields[2],
      Given(node, fields[3], otherwise))))
  {
    FirstOr(node, fields, otherwise);
    FirstOr(node, fields[1..], otherwise);
    FirstOr(node, fields[2..], otherwise);
    FirstOr(node, fields[3..], otherwise);
    assert fields[1..][1..] == fields[2..] && fields[2..][1..] == fields[3..] && fields[3..][1..] == [];
  }

  lemma FirstOf5(node: Node, fields: seq<string>, otherwise: string)
    requires |fields| == 5
    ensures FoundOr(node, fields, otherwise) ==
      Given(node, fields[0], Given(node, fields[1], Given(node, fields[2],
      Given(node, fields[3], Given(node, fields[4], otherwise)))))
  {
    FirstOr(node, fields, otherwise);
    FirstOf4(node, fields[1..], otherwise);
  }

  lemma FirstOf6(node: Node, fields: seq<string>, otherwise: string)
    requires |fields| == 6
    ensures FoundOr(node, fields, otherwise) ==
      Given(node, fields[0], Given(node, fields[1], Given(node, fields[2],
      Given(node, fields[3], Given(node, fields[4], Given(node, fields[5],
otherwise))))))
  {
    FirstOr(node, fields, otherwise);
    FirstOf5(node, fields[1..], otherwise);
  }

  lemma FirstOf7(node: Node, fields: seq<string>, otherwise: string)
    requires |fields| == 7
    ensures FoundOr(node, fields, otherwise) ==
      Given(node, fields[0], Given(node, fields[1], Given(node, fields[2],
      Given(node, fields[3], Given(node, fields[4], Given(node, fields[5],
      Given(node, fields[6], otherwise)))))))
  {
    FirstOr(node, fields, otherwise);
    FirstOf6(node, fields[1..], otherwise);
  }

  /** A port asks for its location id, UN/LOCODE, port id, code or id, in this order. */
  lemma PortPrefers(naming: Naming, node: Node)
    ensures PreferredLocation(naming, node, "port") ==
      Given(node, "location_id", Given(node, "unlocode", Given(node, "port_id",
      Given(node, "code", Given(node, "id", "loc:" + "port" + ":" + naming.suffix(node))))))
  {
    FirstOf5(node, LocationIdFields("port"), "loc:" + "port" + ":" + naming.suffix(node));
  }

  /** An airport asks for its location id, its codes, or its ids. */
  lemma AirportPrefers(naming: Naming, node: Node)
    ensures PreferredLocation(naming, node, "airport") ==
      Given(node, "location_id", Given(node, "iata", Given(node, "iata_code",
      Given(node, "icao", Given(node, "airportId", Given(node, "code",
      Given(node, "id", "loc:" + "airport" + ":" + naming.suffix(node))))))))
  {
    FirstOf7(node, LocationIdFields("airport"), "loc:" + "airport" + ":" + naming.suffix(node));
  }

  /** A rail terminal may be known by its name. */
  lemma RailTerminalPrefers(naming: Naming, node: Node)
    ensures PreferredLocation(naming, node, "rail_terminal") ==
      Given(node, "location_id", Given(node, "terminal_code", Given(node, "code",
      Given(node, "id", Given(node, "name", "loc:" + "rail_terminal" + ":" + naming.suffix(node))))))
  {
    FirstOf5(node, LocationIdFields("rail_terminal"), "loc:" + "rail_terminal" + ":" + naming.suffix(node));
  }

  /** So may a road terminal, which has an id of its own. */
  lemma RoadTerminalPrefers(naming: Naming, node: Node)
    ensures PreferredLocation(naming, node, "road_terminal") ==
      Given(node, "location_id", Given(node, "road_terminal_id", Given(node, "terminal_code",
      Given(node, "code", Given(node, "id", Given(node, "name",
"loc:" + "road_terminal" + ":" + naming.suffix(node)))))))
  {
    FirstOf6(node, LocationIdFields("road_terminal"), "loc:" + "road_terminal" + ":" + naming.suffix(node));
  }

  /** A factory has three names for its own id. */
  lemma FactoryPrefers(naming: Naming, node: Node)
    ensures PreferredLocation(naming, node, "factory") ==
      Given(node, "location_id", Given(node, "factory_id", Given(node, "factoryId",
      Given(node, "factoryCode", Given(node, "code", Given(node, "id",
      Given(node, "name", "loc:" + "factory" + ":" + naming.suffix(node))))))))
  {
    FirstOf7(node, LocationIdFields("factory"), "loc:" + "factory" + ":" + naming.suffix(node));
  }

  /** A warehouse asks for its warehouse id after its location id. */
  lemma WarehousePrefers(naming: Naming, node: Node)
    ensures PreferredLocation(naming, node, "warehouse") ==
      Given(node, "location_id", Given(node, "warehouse_id", Given(node, "code",
      Given(node, "airportId", Given(node, "id", "loc:" + "warehouse" + ":" + naming.suffix(node))))))
  {
    FirstOf5(node, LocationIdFields("warehouse"), "loc:" + "warehouse" + ":" + naming.suffix(node));
  }

  /** The warehouse id itself: that field, a code or an id, or else one made of the name. */
  lemma WarehouseIdPrefers(naming: Naming, node: Node)
    ensures PreferredWarehouse(naming, node) ==
      Given(node, "warehouse_id", Given(node, "code", Given(node, "airportId",
      Given(node, "id", "warehouse:" + naming.slug(Given(node, "name", naming.suffix(node)))))))
  {
    FirstOf4(node, WAREHOUSE_ID_FIELDS, "warehouse:" + naming.slug(Given(node, "name", naming.suffix(node))));
  }

  // ------------------------------------------------------------------ nodes that are planned twice

  /** A port that carries its location id. */
  function Port(elementId: string, locationId: string): Node {
    Node(elementId, {"Port"}, map["location_id" := locationId])
  }

  /** A warehouse that carries its location id and its warehouse id. */
  function Depot(elementId: string, locationId: string, warehouseId: string): Node {
    Node(elementId, {"Warehouse"}, map["location_id" := locationId, "warehouse_id" := warehouseId])
  }

  /** Three ports: the first already carries the suffixed form of the third, which shares its id with the second. */
  function ThreePorts(naming: Naming, id: string): seq<Node> {
    [Port("1", id + "~" + naming.short(Port("3", id))), Port("2", id), Port("3", id)]
  }

  /** Three warehouses of different location ids whose warehouse ids do the same. */
  function ThreeDepots(naming: Naming, a: string, b: string, c: string, id: string): seq<Node> {
    [Depot("1", a, id + "~" + naming.short(Depot("3", c, id))), Depot("2", b, id), Depot("3", c, id)]
  }

  predicate Carried(node: Node, field: string, value: string) {
    field in node.properties && node.properties[field] == value && Printable(value)
  }

  lemma CarriedLocationWish(naming: Naming, node: Node, locationId: string)
    requires Carried(node, "location_id", locationId)
    ensures Identifier(node.properties, "location_id").Some?
    ensures LocationClaim(naming, node).preferred == locationId
    ensures LocationClaim(naming, node).suffixed == locationId + "~" + naming.short(node)
  {
    CarriedIdentifier(node.properties, "location_id", locationId);
  }

  lemma CarriedWarehouseWish(naming: Naming, node: Node, warehouseId: string)
    requires Carried(node, "warehouse_id", warehouseId)
    ensures WarehouseClaim(naming, node).preferred == warehouseId
    ensures WarehouseClaim(naming, node).suffixed == warehouseId + "~" + naming.short(node)
  {
    CarriedIdentifier(node.properties, "warehouse_id", warehouseId);
  }

  lemma SuffixedFormIsPrintable(naming: Naming, node: Node, id: string)
    requires SoundNaming(naming) && Printable(id)
    ensures Printable(id + "~" + naming.short(node))
  {
    JoinTrimmed(id, "~", naming.short(node));
  }

  /** A middle and a last claim for one id, whose suffixed form the first claim prefers. */
  lemma TrioClashes(claims: seq<Claim>)
    requires |claims| == 3 && claims[1].preferred == claims[2].preferred && claims[0].preferred == claims[2].suffixed
    ensures Clash(claims, 0, 2)
  {
    assert CrowdsOut(claims[1], claims[2], Crowded(claims, 1));
  }

  ghost predicate IsTrio(nodes: seq<Node>) {
    |nodes| == 3 && nodes[0].elementId == "1" && nodes[1].elementId == "2" && nodes[2].elementId == "3"
  }

  lemma TrioIsDistinct(nodes: seq<Node>)
    requires IsTrio(nodes)
    ensures DistinctElements(nodes)
  {
    assert "1"[0] != "2"[0] && "1"[0] != "3"[0] && "2"[0] != "3"[0];
  }

  lemma CarriersInOrder(a: Node, b: Node)
    requires Identifier(a.properties, "location_id").Some? && Identifier(b.properties, "location_id").Some?
    requires StrLe(a.elementId, b.elementId)
    ensures NodeLe(a, b)
  {
  }

  lemma DigitsInOrder()
    ensures StrLe("1", "2") && StrLe("1", "3") && StrLe("2", "3")
  {
  }

  lemma ThreeInOrder(nodes: seq<Node>)
    requires |nodes| == 3 && NodeLe(nodes[0], nodes[1]) && NodeLe(nodes[0], nodes[2]) && NodeLe(nodes[1], nodes[2])
    ensures Sorted(nodes, NodeLe)
  {
    forall i, j | 0 <= i < j < |nodes| ensures NodeLe(nodes[i], nodes[j]) {
      assert (i == 0 && j == 1) || (i == 0 && j == 2) || (i == 1 && j == 2);
    }
  }

  lemma TrioIsInOrder(nodes: seq<Node>)
    requires IsTrio(nodes)
    requires Identifier(nodes[0].properties, "location_id").Some?
    requires Identifier(nodes[1].properties, "location_id").Some?
    requires Identifier(nodes[2].properties, "location_id").Some?
    ensures Sorted(nodes, NodeLe)
  {
    DigitsInOrder();
    CarriersInOrder(nodes[0], nodes[1]);
    CarriersInOrder(nodes[0], nodes[2]);
    CarriersInOrder(nodes[1], nodes[2]);
    ThreeInOrder(nodes);
  }

  lemma PortsAskForOneId(naming: Naming, nodes: seq<Node>, id: string)
    requires IsTrio(nodes) && Carried(nodes[0], "location_id", id + "~" + naming.short(nodes[2]))
    requires Carried(nodes[1], "location_id", id) && Carried(nodes[2], "location_id", id)
    ensures Sorted(nodes, NodeLe) && Clash(LocationClaims(naming, nodes), 0, 2)
  {
    CarriedLocationWish(naming, nodes[0], id + "~" + naming.short(nodes[2]));
    CarriedLocationWish(naming, nodes[1], id);
    CarriedLocationWish(naming, nodes[2], id);
    TrioIsInOrder(nodes);
    TrioClashes(LocationClaims(naming, nodes));
  }

  lemma DepotsAskForOneId(naming: Naming, nodes: seq<Node>, id: string)
    requires IsTrio(nodes) && Warehouses(nodes) == nodes
    requires Carried(nodes[0], "warehouse_id", id + "~" + naming.short(nodes[2]))
    requires Carried(nodes[1], "warehouse_id", id) && Carried(nodes[2], "warehouse_id", id)
    ensures Clash(WarehouseClaims(naming, nodes), 0, 2)
  {
    CarriedWarehouseWish(naming, nodes[0], id + "~" + naming.short(nodes[2]));
    CarriedWarehouseWish(naming, nodes[1], id);
    CarriedWarehouseWish(naming, nodes[2], id);
    TrioClashes(WarehouseClaims(naming, nodes));
  }

  lemma TrioAsksForThreeIds(naming: Naming, nodes: seq<Node>, a: string, b: string, c: string)
    requires IsTrio(nodes) && a != b && a != c && b != c
    requires Carried(nodes[0], "location_id", a) && Carried(nodes[1], "location_id", b)
    requires Carried(nodes[2], "location_id", c)
    ensures Sorted(nodes, NodeLe) && DistinctIds(LocationIds(naming, nodes))
  {
    CarriedLocationWish(naming, nodes[0], a);
    CarriedLocationWish(naming, nodes[1], b);
    CarriedLocationWish(naming, nodes[2], c);
    TrioIsInOrder(nodes);
    TrioIsDistinct(nodes);
    ClaimsHaveDistinctOwners(naming, nodes);
    DistinctWishesDistinctIds(LocationClaims(naming, nodes));
  }

  lemma PortIsKnown(elementId: string, locationId: string)
    ensures KindKnown(Port(elementId, locationId))
  {
  }

  lemma DepotIsWarehouse(elementId: string, locationId: string, warehouseId: string)
    ensures KindKnown(Depot(elementId, locationId, warehouseId))
    ensures IsWarehouse(Depot(elementId, locationId, warehouseId))
  {
    KindOfWarehouse(LOCATION_KIND_ORDER);
    assert "Warehouse" in {"Warehouse"} * WAREHOUSE_LABELS;
  }

  lemma {:induction false} KindOfWarehouse(order: seq<(string, string)>)
    requires forall k :: 0 <= k < |order| ==> order[k].0 != "Warehouse"
    ensures KindIn(order, {"Warehouse"}) == None
  {
    if order != [] { KindOfWarehouse(order[1..]); }
  }

  lemma PortsAreKnown(naming: Naming, id: string)
    ensures KindsKnown(ThreePorts(naming, id))
  {
    PortIsKnown("1", id + "~" + naming.short(Port("3", id)));
    PortIsKnown("2", id);
    PortIsKnown("3", id);
  }

  lemma DepotsAreWarehouses(naming: Naming, a: string, b: string, c: string, id: string)
    ensures var nodes := ThreeDepots(naming, a, b, c, id); Warehouses(nodes) == nodes && KindsKnown(nodes)
  {
    DepotIsWarehouse("1", a, id + "~" + naming.short(Depot("3", c, id)));
    DepotIsWarehouse("2", b, id);
    DepotIsWarehouse("3", c, id);
    FilterAll(ThreeDepots(naming, a, b, c, id), (node: Node) => IsWarehouse(node));
  }

  /** The plan leaves two of the three ports with one id, so planning again has rows. */
  lemma ThreePortsReplan(naming: Naming, id: string, again: seq<Node>)
    requires SoundNaming(naming) && Printable(id)
    requires AppliedAll(naming, ThreePorts(naming, id), again) && Covers(ThreePorts(naming, id), again)
    ensures DistinctElements(ThreePorts(naming, id)) && KindsKnown(ThreePorts(naming, id))
    ensures Sorted(ThreePorts(naming, id), NodeLe)
    ensures PlannedRows(naming, again, again) != []
  {
    var nodes := ThreePorts(naming, id);
    SuffixedFormIsPrintable(naming, nodes[2], id);
    PortsAreKnown(naming, id);
    PortsAskForOneId(naming, nodes, id);
    ClashReplans(naming, nodes, again);
  }

  /** So it does with the three warehouses, although all their location ids come out distinct. */
  lemma ThreeDepotsReplan(naming: Naming, a: string, b: string, c: string, id: string, again: seq<Node>)
    requires SoundNaming(naming) && Printable(a) && Printable(b) && Printable(c) && Printable(id)
    requires a != b && a != c && b != c
    requires AppliedAll(naming, ThreeDepots(naming, a, b, c, id), again)
    requires Covers(ThreeDepots(naming, a, b, c, id), again)
    ensures var nodes := ThreeDepots(naming, a, b, c, id);
      DistinctElements(nodes) && KindsKnown(nodes) && Sorted(nodes, NodeLe) && DistinctIds(LocationIds(naming, nodes))
    ensures PlannedRows(naming, again, again) != []
  {
    var nodes := ThreeDepots(naming, a, b, c, id);
    SuffixedFormIsPrintable(naming, nodes[2], id);
    DepotsAreWarehouses(naming, a, b, c, id);
    TrioAsksForThreeIds(naming, nodes, a, b, c);
    DepotsAskForOneId(naming, nodes, id);
    ClashReplans(naming, nodes, again);
  }

  lemma ClashReplans(naming: Naming, nodes: seq<Node>, again: seq<Node>)
    requires SoundNaming(naming) && IsTrio(nodes) && KindsKnown(nodes)
    requires AppliedAll(naming, nodes, again) && Covers(nodes, again)
    requires Clash(LocationClaims(naming, nodes), 0, 2) || Clash(WarehouseClaims(naming, nodes), 0, 2)
    ensures DistinctElements(nodes) && PlannedRows(naming, again, again) != []
  {
    TrioIsDistinct(nodes);
    ClaimsHaveDistinctOwners(naming, nodes);
    if Clash(LocationClaims(naming, nodes), 0, 2) {
      ClashDuplicates(LocationClaims(naming, nodes), 0, 2);
    } else {
      ClashDuplicates(WarehouseClaims(naming, nodes), 0, 2);
    }
    PlanIsIdempotentIff(naming, nodes, again);
  }

  // ------------------------------------------------------------------ distinct and stable ids

  /** Under fresh suffixes all location ids and all warehouse ids are pairwise distinct. */
  lemma PlannedIdsAreDistinct(naming: Naming, nodes: seq<Node>)
    requires DistinctElements(nodes)
    requires FreshSuffixes(LocationClaims(naming, nodes)) && FreshSuffixes(WarehouseClaims(naming, nodes))
    ensures DistinctIds(LocationIds(naming, nodes)) && DistinctIds(WarehouseIds(naming, nodes))
  {
    ClaimsHaveDistinctOwners(naming, nodes);
    FreshSuffixesSuffice(LocationClaims(naming, nodes));
    FreshSuffixesSuffice(WarehouseClaims(naming, nodes));
  }

  lemma NodeLeOrder()
    ensures Preorder(NodeLe)
  {
    StrLeOrder();
  }

  /** The node carries a location id that, trimmed, no other node carries. */
  ghost predicate CarriesUniquely(nodes: seq<Node>, i: nat) {
    && i < |nodes| && Identifier(nodes[i].properties, "location_id").Some?
    && forall j :: 0 <= j < |nodes| && j != i ==>
         Identifier(nodes[j].properties, "location_id") != Identifier(nodes[i].properties, "location_id")
  }

  /** An earlier node, crowded out of its own id, is suffixed to the one this node carries. */
  ghost predicate SuffixedOnto(claims: seq<Claim>, h: nat, i: nat) {
    h < i < |claims| && Crowded(claims, h) && claims[h].suffixed == claims[i].preferred
  }

  lemma CarrierPrefersItsId(naming: Naming, nodes: seq<Node>, i: nat)
    requires i < |nodes| && Identifier(nodes[i].properties, "location_id").Some?
    ensures LocationClaims(naming, nodes)[i].preferred == Identifier(nodes[i].properties, "location_id").value
    ensures LocationClaims(naming, nodes)[i].suffixed
      == Identifier(nodes[i].properties, "location_id").value + "~" + naming.short(nodes[i])
  {
  }

  lemma UniqueCarrierIsCrowdedIff(naming: Naming, nodes: seq<Node>, i: nat)
    requires Sorted(nodes, NodeLe) && CarriesUniquely(nodes, i)
    ensures Crowded(LocationClaims(naming, nodes), i)
      <==> exists h: nat :: SuffixedOnto(LocationClaims(naming, nodes), h, i)
  {
    var claims := LocationClaims(naming, nodes);
    CarrierPrefersItsId(naming, nodes, i);
    forall h | 0 <= h < i ensures claims[h].preferred != claims[i].preferred {
      assert NodeLe(nodes[h], nodes[i]);
      CarrierPrefersItsId(naming, nodes, h);
    }
    if h: nat :| SuffixedOnto(claims, h, i) { assert CrowdsOut(claims[h], claims[i], Crowded(claims, h)); }
    if Crowded(claims, i) {
      var h :| 0 <= h < i && CrowdsOut(claims[h], claims[i], Crowded(claims, h));
      assert SuffixedOnto(claims, h, i);
    }
  }

  /**
   * A node keeps the trimmed location id that no other node carries, exactly when no earlier node is
   * suffixed to it. All earlier nodes carry an id as well: what nodes without one prefer cannot matter.
   */
  lemma UniqueLocationIdIsKeptIff(naming: Naming, nodes: seq<Node>, i: nat)
    requires DistinctElements(nodes) && Sorted(nodes, NodeLe) && CarriesUniquely(nodes, i)
    ensures nodes[i].elementId in LocationIds(naming, nodes)
    ensures LocationIds(naming, nodes)[nodes[i].elementId] == Identifier(nodes[i].properties, "location_id").value
      <==> !exists h: nat :: SuffixedOnto(LocationClaims(naming, nodes), h, i)
    ensures forall h :: 0 <= h < i ==> Identifier(nodes[h].properties, "location_id").Some?
  {
    var claims := LocationClaims(naming, nodes);
    ClaimsHaveDistinctOwners(naming, nodes);
    AssignedId(claims, i);
    CollidesIffCrowded(claims, i);
    UniqueCarrierIsCrowdedIff(naming, nodes, i);
    CarrierPrefersItsId(naming, nodes, i);
    forall h | 0 <= h < i ensures Identifier(nodes[h].properties, "location_id").Some? {
      assert NodeLe(nodes[h], nodes[i]);
    }
  }

  /** Ids given to the first nodes stay the same whatever nodes are planned after them. */
  lemma LaterNodesDoNotMatter(naming: Naming, carriers: seq<Node>, others: seq<Node>, i: nat)
    requires DistinctElements(carriers + others) && i < |carriers|
    ensures carriers[i].elementId in LocationIds(naming, carriers)
    ensures carriers[i].elementId in LocationIds(naming, carriers + others)
    ensures LocationIds(naming, carriers + others)[carriers[i].elementId]
      == LocationIds(naming, carriers)[carriers[i].elementId]
  {
    var claims := LocationClaims(naming, carriers + others);
    assert claims[..|carriers|] == LocationClaims(naming, carriers);
    ClaimsHaveDistinctOwners(naming, carriers + others);
    AssignedId(claims[..|carriers|], i);
    IdPersists(claims, |carriers|, carriers[i].elementId);
  }

  /** Three ports: the third carries the suffixed form of the second, which shares its id with the first. */
  function SuffixTaken(naming: Naming, id: string): seq<Node> {
    [Port("1", id), Port("2", id), Port("3", id + "~" + naming.short(Port("2", id)))]
  }

  lemma TrioSuffixesOnto(claims: seq<Claim>)
    requires |claims| == 3 && claims[0].preferred == claims[1].preferred && claims[1].suffixed == claims[2].preferred
    ensures SuffixedOnto(claims, 1, 2)
  {
    assert CrowdsOut(claims[0], claims[1], Crowded(claims, 0));
  }

  lemma LastCarriesUniquely(nodes: seq<Node>)
    requires |nodes| == 3 && Identifier(nodes[2].properties, "location_id").Some?
    requires Identifier(nodes[0].properties, "location_id") != Identifier(nodes[2].properties, "location_id")
    requires Identifier(nodes[1].properties, "location_id") != Identifier(nodes[2].properties, "location_id")
    ensures CarriesUniquely(nodes, 2)
  {
    forall j | 0 <= j < |nodes| && j != 2
      ensures Identifier(nodes[j].properties, "location_id") != Identifier(nodes[2].properties, "location_id")
    {
      if j != 0 { assert j == 1; }
    }
  }

  lemma SuffixTakenIsLost(naming: Naming, nodes: seq<Node>, id: string)
    requires IsTrio(nodes) && Carried(nodes[0], "location_id", id) && Carried(nodes[1], "location_id", id)
    requires Carried(nodes[2], "location_id", id + "~" + naming.short(nodes[1]))
    ensures Sorted(nodes, NodeLe) && CarriesUniquely(nodes, 2)
    ensures SuffixedOnto(LocationClaims(naming, nodes), 1, 2)
  {
    CarriedIdentifier(nodes[0].properties, "location_id", id);
    CarriedIdentifier(nodes[1].properties, "location_id", id);
    CarriedIdentifier(nodes[2].properties, "location_id", id + "~" + naming.short(nodes[1]));
    assert |id + "~" + naming.short(nodes[1])| > |id|;
    LastCarriesUniquely(nodes);
    TrioIsInOrder(nodes);
    CarrierPrefersItsId(naming, nodes, 0);
    CarrierPrefersItsId(naming, nodes, 1);
    CarrierPrefersItsId(naming, nodes, 2);
    TrioSuffixesOnto(LocationClaims(naming, nodes));
  }

  /** The last node of three is the only one to carry its id, and loses it. */
  ghost predicate LosesUniqueId(naming: Naming, nodes: seq<Node>) {
    && DistinctElements(nodes) && Sorted(nodes, NodeLe) && KindsKnown(nodes) && CarriesUniquely(nodes, 2)
    && nodes[2].elementId in LocationIds(naming, nodes)
    && LocationIds(naming, nodes)[nodes[2].elementId] != Identifier(nodes[2].properties, "location_id").value
  }

  lemma SuffixTakenLoses(naming: Naming, nodes: seq<Node>, id: string)
    requires IsTrio(nodes) && KindsKnown(nodes)
    requires Carried(nodes[0], "location_id", id) && Carried(nodes[1], "location_id", id)
    requires Carried(nodes[2], "location_id", id + "~" + naming.short(nodes[1]))
    ensures LosesUniqueId(naming, nodes)
  {
    TrioIsDistinct(nodes);
    SuffixTakenIsLost(naming, nodes, id);
    UniqueLocationIdIsKeptIff(naming, nodes, 2);
  }

  lemma SuffixTakenIsKnown(naming: Naming, id: string)
    ensures KindsKnown(SuffixTaken(naming, id))
  {
    PortIsKnown("1", id);
    PortIsKnown("2", id);
    PortIsKnown("3", id + "~" + naming.short(Port("2", id)));
  }

  /** Such are the three ports, for every printable id. */
  lemma UniqueLocationIdCanBeLost(naming: Naming, id: string)
    requires SoundNaming(naming) && Printable(id)
    ensures LosesUniqueId(naming, SuffixTaken(naming, id))
  {
    SuffixedFormIsPrintable(naming, Port("2", id), id);
    SuffixTakenIsKnown(naming, id);
    SuffixTakenLoses(naming, SuffixTaken(naming, id), id);
  }

  // ------------------------------------------------------------------ the program

  lemma PlannedNext(naming: Naming, nodes: seq<Node>, k: nat)
    requires k < |nodes|
    ensures PlannedRows(naming, nodes[..k + 1], nodes) ==
      PlannedRows(naming, nodes[..k], nodes)
        + if NeedsRow(RowIn(naming, nodes[k], nodes)) then [RowIn(naming, nodes[k], nodes)] else []
  {
    assert nodes[..k + 1][..k] == nodes[..k];
  }

  /** One turn of the planning loop: the ids of one node, and its row. */
  method PlanNode(naming: Naming, ordered: seq<Node>, k: nat,
                  locationTable: map<string, string>, warehouseTable: map<string, string>)
    returns (row: Row, usedLocations: map<string, string>, usedWarehouses: map<string, string>)
    requires DistinctElements(ordered) && k < |ordered|
    requires UsedTable(LocationIds(naming, ordered[..k]), locationTable)
    requires UsedTable(WarehouseIds(naming, ordered[..k]), warehouseTable)
    ensures row == RowIn(naming, ordered[k], ordered)
    ensures UsedTable(LocationIds(naming, ordered[..k + 1]), usedLocations)
    ensures UsedTable(WarehouseIds(naming, ordered[..k + 1]), usedWarehouses)
  {
    var node := ordered[k];
    NextIds(naming, ordered, k);
    var locationId, warehouseId;
    locationId, usedLocations :=
      Choose(LocationClaim(naming, node), locationTable, LocationIds(naming, ordered[..k]));
    if IsWarehouse(node) {
      warehouseId, usedWarehouses :=
        Choose(WarehouseClaim(naming, node), warehouseTable, WarehouseIds(naming, ordered[..k]));
    } else {
      warehouseId, usedWarehouses := "", warehouseTable;
      WarehouseIdIsUnused(naming, node, locationId, warehouseId, IdOf(WarehouseIds(naming, ordered), node.elementId));
    }
    row := RowFor(naming, node, locationId, warehouseId);
  }

  lemma PlanningOrder(nodes: seq<Node>)
    requires DistinctElements(nodes)
    ensures var ordered := Sort(nodes, NodeLe);
      multiset(ordered) == multiset(nodes) && Sorted(ordered, NodeLe) && DistinctElements(ordered)
  {
    NodeLeOrder();
    SortContents(nodes, NodeLe);
    SortSorted(nodes, NodeLe);
    KeysStayDistinct(nodes, Sort(nodes, NodeLe), (x: Node) => x.elementId);
  }

  /** The projected counts tell whether planning again would be empty: each pair agrees iff the ids are distinct. */
  ghost predicate CountsTell(naming: Naming, ordered: seq<Node>, plan: Plan) {
    && plan.locationCount == |ordered| && plan.warehouseCount == |Warehouses(ordered)|
    && (plan.uniqueLocationIds == plan.locationCount <==> DistinctIds(LocationIds(naming, ordered)))
    && (plan.uniqueWarehouseIds == plan.warehouseCount <==> DistinctIds(WarehouseIds(naming, ordered)))
  }

  method BuildLocationPlan(naming: Naming, nodes: seq<Node>)
    returns (ordered: seq<Node>, result: Result<Plan, Error>)
    requires DistinctElements(nodes)
    ensures multiset(ordered) == multiset(nodes) && Sorted(ordered, NodeLe) && DistinctElements(ordered)
    ensures result.Err? <==> !KindsKnown(ordered)
    ensures result.Ok? ==> result.value.rows == PlannedRows(naming, ordered, ordered)
    ensures result.Ok? ==> CountsTell(naming, ordered, result.value)
  {
    ordered := Sort(nodes, NodeLe);
    PlanningOrder(nodes);
    ClaimsHaveDistinctOwners(naming, ordered);
    var usedLocations: map<string, string> := map[];
    var usedWarehouses: map<string, string> := map[];
    var rows: seq<Row> := [];
    for k := 0 to |ordered|
      invariant forall i :: 0 <= i < k ==> KindKnown(ordered[i])
      invariant UsedTable(LocationIds(naming, ordered[..k]), usedLocations)
      invariant UsedTable(WarehouseIds(naming, ordered[..k]), usedWarehouses)
      invariant rows == PlannedRows(naming, ordered[..k], ordered)
    {
      var node := ordered[k];
      if !KindKnown(node) {
        return ordered, Err(UnknownKind(node.elementId));
      }
      var row;
      row, usedLocations, usedWarehouses := PlanNode(naming, ordered, k, usedLocations, usedWarehouses);
      PlannedNext(naming, ordered, k);
      if NeedsRow(row) {
        rows := rows + [row];
      }
    }
    assert ordered[..|ordered|] == ordered;
    UsedCountIff(LocationClaims(naming, ordered), usedLocations);
    UsedCountIff(WarehouseClaims(naming, ordered), usedWarehouses);
    result := Ok(Plan(rows, |ordered|, |usedLocations|, |Warehouses(ordered)|, |usedWarehouses|));
  }

  /** What one turn of the planning loop adds to both id tables, and that it is final. */
  lemma NextIds(naming: Naming, nodes: seq<Node>, k: nat)
    requires DistinctElements(nodes) && k < |nodes|
    ensures var node, before := nodes[k], nodes[..k];
      var locationId := Choice(LocationIds(naming, before), LocationClaim(naming, node));
      && node.elementId !in LocationIds(naming, before)
      && (IsWarehouse(node) ==> node.elementId !in WarehouseIds(naming, before))
      && LocationIds(naming, nodes[..k + 1]) == LocationIds(naming, before)[node.elementId := locationId]
      && IdOf(LocationIds(naming, nodes), node.elementId) == locationId
    ensures var node, before := nodes[k], nodes[..k];
      var warehouseId := Choice(WarehouseIds(naming, before), WarehouseClaim(naming, node));
      if IsWarehouse(node) then
        && WarehouseIds(naming, nodes[..k + 1]) == WarehouseIds(naming, before)[node.elementId := warehouseId]
        && IdOf(WarehouseIds(naming, nodes), node.elementId) == warehouseId
      else WarehouseIds(naming, nodes[..k + 1]) == WarehouseIds(naming, before)
  {
    NextLocationId(naming, nodes, k);
    NextWarehouseId(naming, nodes, k);
  }

  lemma NextLocationId(naming: Naming, nodes: seq<Node>, k: nat)
    requires DistinctElements(nodes) && k < |nodes|
    ensures var node, before := nodes[k], nodes[..k];
      var locationId := Choice(LocationIds(naming, before), LocationClaim(naming, node));
      && node.elementId !in LocationIds(naming, before)
      && LocationIds(naming, nodes[..k + 1]) == LocationIds(naming, before)[node.elementId := locationId]
      && IdOf(LocationIds(naming, nodes), node.elementId) == locationId
  {
    ClaimsHaveDistinctOwners(naming, nodes);
    var before := LocationClaims(naming, nodes[..k]);
    assert LocationClaims(naming, nodes[..k + 1]) == before + [LocationClaim(naming, nodes[k])];
    AssignedAtTurn(LocationClaims(naming, nodes), before, LocationClaim(naming, nodes[k]));
  }

  lemma NextWarehouseId(naming: Naming, nodes: seq<Node>, k: nat)
    requires DistinctElements(nodes) && k < |nodes|
    ensures var node, before := nodes[k], nodes[..k];
      var warehouseId := Choice(WarehouseIds(naming, before), WarehouseClaim(naming, node));
      && (IsWarehouse(node) ==> node.elementId !in WarehouseIds(naming, before))
      && (if IsWarehouse(node) then
            && WarehouseIds(naming, nodes[..k + 1]) == WarehouseIds(naming, before)[node.elementId := warehouseId]
            && IdOf(WarehouseIds(naming, nodes), node.elementId) == warehouseId
          else WarehouseIds(naming, nodes[..k + 1]) == WarehouseIds(naming, before))
  {
    WarehousesGrow(nodes, k);
    ClaimsHaveDistinctOwners(naming, nodes);
    var before := WarehouseClaims(naming, nodes[..k]);
    if IsWarehouse(nodes[k]) {
      assert WarehouseClaims(naming, nodes[..k + 1]) == before + [WarehouseClaim(naming, nodes[k])];
      AssignedAtTurn(WarehouseClaims(naming, nodes), before, WarehouseClaim(naming, nodes[k]));
    } else {
      assert WarehouseClaims(naming, nodes[..k + 1]) == before;
    }
  }

  lemma WarehousesGrow(nodes: seq<Node>, k: nat)
    requires k < |nodes|
    ensures Warehouses(nodes[..k + 1]) == Warehouses(nodes[..k]) + if IsWarehouse(nodes[k]) then [nodes[k]] else []
    ensures Warehouses(nodes[..k + 1]) <= Warehouses(nodes)
  {
    var keep := (node: Node) => IsWarehouse(node);
    TakeOneMore(nodes, k);
    FilterSnoc(nodes[..k], nodes[k], keep);
    FilterPrefix(nodes, k + 1, keep);
  }
}
