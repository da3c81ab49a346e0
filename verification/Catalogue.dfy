/** The catalogue tables and the statements that handlers run on them. Rows are never removed:
    deletion stamps archived_on. A row's id is its position in its table. */
module Catalogue {
  import opened Wrappers

  datatype Root = Root(name: string, skuPrefix: string, quantityPerPackage: nat, archivedOn: Option<Time>)

  datatype Product = Product(rootID: nat, primaryImageID: Option<nat>, name: string, sku: string, upc: string,
                             optionSummary: string, quantityPerPackage: nat, archivedOn: Option<Time>)

  datatype OptionRow = OptionRow(rootID: nat, name: string, archivedOn: Option<Time>)

  datatype ValueRow = ValueRow(optionID: nat, value: string, archivedOn: Option<Time>)

  datatype Bridge = Bridge(productID: nat, valueID: nat, archivedOn: Option<Time>)

  datatype Image = Image(rootID: nat, location: string, sourceURL: string)

  datatype Tables = Tables(roots: seq<Root>, products: seq<Product>, options: seq<OptionRow>,
                           values: seq<ValueRow>, bridges: seq<Bridge>, images: seq<Image>)

  function Empty(): Tables {
    Tables([], [], [], [], [], [])
  }

  // ----- what the lookups see -----

  predicate LiveRoot(t: Tables, id: nat) {
    id < |t.roots| && t.roots[id].archivedOn.None?
  }

  predicate LiveProduct(t: Tables, id: nat) {
    id < |t.products| && t.products[id].archivedOn.None?
  }

  predicate LiveOption(t: Tables, id: nat) {
    id < |t.options| && t.options[id].archivedOn.None?
  }

  predicate LiveValue(t: Tables, id: nat) {
    id < |t.values| && t.values[id].archivedOn.None?
  }

  predicate LiveBridge(t: Tables, id: nat) {
    id < |t.bridges| && t.bridges[id].archivedOn.None?
  }

  predicate PrefixTaken(t: Tables, prefix: string) {
    exists i :: 0 <= i < |t.roots| && LiveRoot(t, i) && t.roots[i].skuPrefix == prefix
  }

  predicate OptionNameTaken(t: Tables, rootID: nat, name: string) {
    exists i :: 0 <= i < |t.options| && LiveOption(t, i) && t.options[i].rootID == rootID && t.options[i].name == name
  }

  predicate ValueTaken(t: Tables, optionID: nat, value: string) {
    exists i :: 0 <= i < |t.values| && LiveValue(t, i) && t.values[i].optionID == optionID && t.values[i].value == value
  }

  predicate LiveSku(t: Tables, p: nat, sku: string) {
    LiveProduct(t, p) && t.products[p].sku == sku
  }

  predicate HasValues(t: Tables, o: nat) {
    exists i :: 0 <= i < |t.values| && t.values[i].optionID == o
  }

  // ----- the UNIQUE constraints -----

  /** Both rows are archived at the same instant; NULL stamps never collide. */
  predicate SameStamp(a: Option<Time>, b: Option<Time>) {
    a.Some? && a == b
  }

  /** UNIQUE (sku_prefix, archived_on). */
  predicate RootsClash(a: Root, b: Root) {
    a.skuPrefix == b.skuPrefix && SameStamp(a.archivedOn, b.archivedOn)
  }

  /** UNIQUE (sku, archived_on), and the unique index on the UPCs that are not empty. */
  predicate ProductsClash(a: Product, b: Product) {
    || (a.sku == b.sku && SameStamp(a.archivedOn, b.archivedOn))
    || (a.upc == b.upc && a.upc != "")
  }

  /** UNIQUE (product_root_id, name) and UNIQUE (name, archived_on). */
  predicate OptionsClash(a: OptionRow, b: OptionRow) {
    a.name == b.name && (a.rootID == b.rootID || SameStamp(a.archivedOn, b.archivedOn))
  }

  /** UNIQUE (product_option_id, value) and UNIQUE (value, archived_on). */
  predicate ValuesClash(a: ValueRow, b: ValueRow) {
    a.value == b.value && (a.optionID == b.optionID || SameStamp(a.archivedOn, b.archivedOn))
  }

  predicate RootKeys(rows: seq<Root>) {
    forall i, j :: 0 <= i < j < |rows| ==> !RootsClash(rows[i], rows[j])
  }

  predicate ProductKeys(rows: seq<Product>) {
    forall i, j :: 0 <= i < j < |rows| ==> !ProductsClash(rows[i], rows[j])
  }

  predicate OptionKeys(rows: seq<OptionRow>) {
    forall i, j :: 0 <= i < j < |rows| ==> !OptionsClash(rows[i], rows[j])
  }

  predicate ValueKeys(rows: seq<ValueRow>) {
    forall i, j :: 0 <= i < j < |rows| ==> !ValuesClash(rows[i], rows[j])
  }

  /** What the database enforces on the rows of each table. */
  predicate UniqueKeys(t: Tables) {
    RootKeys(t.roots) && ProductKeys(t.products) && OptionKeys(t.options) && ValueKeys(t.values)
  }

  // ----- what every sequential run keeps -----

  /** The foreign keys. */
  ghost predicate References(t: Tables) {
    && (forall i :: 0 <= i < |t.products| ==> t.products[i].rootID < |t.roots|)
    && (forall i :: 0 <= i < |t.products| && t.products[i].primaryImageID.Some? ==>
          t.products[i].primaryImageID.value < |t.images|)
    && (forall i :: 0 <= i < |t.options| ==> t.options[i].rootID < |t.roots|)
    && (forall i :: 0 <= i < |t.values| ==> t.values[i].optionID < |t.options|)
    && (forall i :: 0 <= i < |t.bridges| ==> t.bridges[i].productID < |t.products| && t.bridges[i].valueID < |t.values|)
    && (forall i :: 0 <= i < |t.images| ==> t.images[i].rootID < |t.roots|)
  }

  /** No live row hangs off an archived one. */
  ghost predicate Liveness(t: Tables) {
    && (forall i: nat :: LiveProduct(t, i) ==> LiveRoot(t, t.products[i].rootID))
    && (forall i: nat :: LiveOption(t, i) ==> LiveRoot(t, t.options[i].rootID))
    && (forall i: nat :: LiveValue(t, i) ==> LiveOption(t, t.values[i].optionID))
    && (forall i: nat :: LiveBridge(t, i) ==> LiveProduct(t, t.bridges[i].productID))
  }

  ghost predicate PrefixesDistinct(t: Tables) {
    forall i: nat, j: nat :: LiveRoot(t, i) && LiveRoot(t, j) && t.roots[i].skuPrefix == t.roots[j].skuPrefix ==> i == j
  }

  ghost predicate Consistent(t: Tables) {
    References(t) && Liveness(t) && PrefixesDistinct(t)
  }

  ghost predicate Before(stamp: Option<Time>, now: Time) {
    stamp.Some? ==> stamp.value < now
  }

  /** Every row with a UNIQUE constraint on its stamp was archived before now, if at all. */
  ghost predicate StampsBefore(t: Tables, now: Time) {
    && (forall i :: 0 <= i < |t.roots| ==> Before(t.roots[i].archivedOn, now))
    && (forall i :: 0 <= i < |t.products| ==> Before(t.products[i].archivedOn, now))
    && (forall i :: 0 <= i < |t.options| ==> Before(t.options[i].archivedOn, now))
    && (forall i :: 0 <= i < |t.values| ==> Before(t.values[i].archivedOn, now))
  }

  // ----- archiving statements -----

  /** Stamps the bridges of every product of the root, live or not. */
  function ArchiveBridgesOfRoot(t: Tables, r: nat, now: Time): Tables {
    t.(bridges := seq(|t.bridges|, i requires 0 <= i < |t.bridges| =>
      if t.bridges[i].productID < |t.products| && t.products[t.bridges[i].productID].rootID == r
      then t.bridges[i].(archivedOn := Some(now)) else t.bridges[i]))
  }

  /** Stamps the values of every option of the root, live or not. */
  function ArchiveValuesOfRoot(t: Tables, r: nat, now: Time): Tables {
    t.(values := seq(|t.values|, i requires 0 <= i < |t.values| =>
      if t.values[i].optionID < |t.options| && t.options[t.values[i].optionID].rootID == r
      then t.values[i].(archivedOn := Some(now)) else t.values[i]))
  }

  /** Unlike its neighbours this statement leaves rows that are already archived alone. */
  function ArchiveOptionsOfRoot(t: Tables, r: nat, now: Time): Tables {
    t.(options := seq(|t.options|, i requires 0 <= i < |t.options| =>
      if t.options[i].rootID == r && t.options[i].archivedOn.None?
      then t.options[i].(archivedOn := Some(now)) else t.options[i]))
  }

  function ArchiveProductsOfRoot(t: Tables, r: nat, now: Time): Tables {
    t.(products := seq(|t.products|, i requires 0 <= i < |t.products| =>
      if t.products[i].rootID == r then t.products[i].(archivedOn := Some(now)) else t.products[i]))
  }

  function ArchiveRoot(t: Tables, r: nat, now: Time): Tables {
    if r < |t.roots| then t.(roots := t.roots[r := t.roots[r].(archivedOn := Some(now))]) else t
  }

  function ArchiveBridgesOfProduct(t: Tables, p: nat, now: Time): Tables {
    t.(bridges := seq(|t.bridges|, i requires 0 <= i < |t.bridges| =>
      if t.bridges[i].productID == p && t.bridges[i].archivedOn.None?
      then t.bridges[i].(archivedOn := Some(now)) else t.bridges[i]))
  }

  function ArchiveProduct(t: Tables, p: nat, now: Time): Tables {
    if p < |t.products| then t.(products := t.products[p := t.products[p].(archivedOn := Some(now))]) else t
  }

  function ArchiveValuesOfOption(t: Tables, o: nat, now: Time): Tables {
    t.(values := seq(|t.values|, i requires 0 <= i < |t.values| =>
      if t.values[i].optionID == o then t.values[i].(archivedOn := Some(now)) else t.values[i]))
  }

  function ArchiveOption(t: Tables, o: nat, now: Time): Tables {
    if o < |t.options| then t.(options := t.options[o := t.options[o].(archivedOn := Some(now))]) else t
  }

  function ArchiveValue(t: Tables, v: nat, now: Time): Tables {
    if v < |t.values| then t.(values := t.values[v := t.values[v].(archivedOn := Some(now))]) else t
  }

  // ----- inserts -----

  function InsertRoot(t: Tables, row: Root): Tables {
    t.(roots := t.roots + [row])
  }

  function InsertProduct(t: Tables, row: Product): Tables {
    t.(products := t.products + [row])
  }

  function InsertOption(t: Tables, row: OptionRow): Tables {
    t.(options := t.options + [row])
  }

  function InsertValue(t: Tables, row: ValueRow): Tables {
    t.(values := t.values + [row])
  }

  function InsertImage(t: Tables, row: Image): Tables {
    t.(images := t.images + [row])
  }

  /** The bulk insert: one live bridge row per (product, value) pair. */
  function InsertBridges(t: Tables, pairs: seq<(nat, nat)>): Tables {
    t.(bridges := t.bridges + seq(|pairs|, i requires 0 <= i < |pairs| => Bridge(pairs[i].0, pairs[i].1, None)))
  }
}
