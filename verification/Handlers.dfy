/** The catalogue handlers as step sequences on a database that refuses what its UNIQUE constraints
    forbid and whose every call may fail. */
module Handlers {
  import opened Wrappers
  import opened MixedRadix
  import opened Variants
  import opened ProductImages
  import opened BridgeQuery
  import opened Catalogue
  import opened Creation
  import opened Lifecycle
  import opened Constraints

  /** What a query row scan comes to: a row, sql.ErrNoRows, or another error. */
  datatype Answer = Hit | NoRows | Broken

  datatype ImageResult = Images(ids: seq<nat>, primary: Option<nat>) | ImagesFailed | ImagesPanicked

  datatype VariantResult = VariantsStored | VariantsFailed | VariantsPanicked

  predicate HasProducts(t: Tables, r: nat) {
    exists i :: 0 <= i < |t.products| && t.products[i].rootID == r
  }

  predicate HasLiveBridges(t: Tables, p: nat) {
    exists i :: 0 <= i < |t.bridges| && t.bridges[i].productID == p && t.bridges[i].archivedOn.None?
  }

  function SetPrimary(t: Tables, p: nat, image: nat): Tables {
    if p < |t.products| then t.(products := t.products[p := t.products[p].(primaryImageID := Some(image))]) else t
  }

  /** The store can take the bridges of products that have one value of each of n options: with more
      than one the bulk insert prints parenthesised groups, which must be read as rows. */
  predicate BridgesTaken(readsGroups: bool, n: nat, products: nat) {
    readsGroups || n <= 1 || products == 0
  }

  /** How a creation ends when no store call fails but for the UNIQUE constraints and the groups of
      the bulk insert. */
  ghost function CreationStatus(readsGroups: bool, t: Tables, env: Environment, input: Option<CreationInput>): Status {
    match input
    case None => BadRequest400
    case Some(request) =>
      var sku, images := request.template.sku, EndOfImages(env, request.template.sku, Kept(request.images));
      if !RestrictedStringIsValid(sku) || PrefixTaken(t, sku) then BadRequest400
      else if images.BadImage? then Internal500
      else if images.Panic? then Crashed
      else if !OptionsWellKeyed(request.options) then Internal500
      else if GeneratorPanics(request.options) then Crashed
      else
        var products := Combinations(InputSizes(request.options));
        if !UpcAllows(t, request.template.upc, products) then Internal500
        else if !BridgesTaken(readsGroups, |request.options|, products) then Internal500
        else Created201
  }

  function EmptySecondOption(): CreationInput {
    CreationInput(Template("shirt", "shirt", "", 1), [], [OptionInput("x", ["a"]), OptionInput("y", [])])
  }

  lemma EmptySecondOptionIsAccepted()
    ensures RestrictedStringIsValid(EmptySecondOption().template.sku) && EmptySecondOption().images == []
    ensures OptionsWellKeyed(EmptySecondOption().options)
  {
  }

  /** A request that the handler lets through and that crashes it. */
  lemma EmptySecondOptionCrashes(readsGroups: bool, env: Environment)
    ensures CreationStatus(readsGroups, Empty(), env, Some(EmptySecondOption())) == Crashed
  {
    EmptySecondOptionIsAccepted();
    assert Kept([]) == [];
    assert EmptySecondOption().options[1].values == [];
  }

  /** The first kept image that is not stored decides: a rejected one ends the creation with 500, a panic
      crashes it, and one without a location ends the image step, so that a product without options is
      created with the images before it and no primary one. */
  lemma FirstUnstoredImageDecides(readsGroups: bool, t: Tables, env: Environment, request: CreationInput, m: nat)
    requires RestrictedStringIsValid(request.template.sku) && !PrefixTaken(t, request.template.sku)
    requires m < |Kept(request.images)|
    requires forall k :: 0 <= k < m ==> env.imager(request.template.sku, k, Kept(request.images)[k]).Stored?
    ensures var status, outcome := CreationStatus(readsGroups, t, env, Some(request)),
                                   env.imager(request.template.sku, m, Kept(request.images)[m]);
      && (outcome.Rejected? ==> status == Internal500)
      && (outcome.ImagePanic? ==> status == Crashed)
      && (outcome.Unlocated? && request.options == [] && request.template.upc == "" ==>
            && status == Created201
            && |AfterCreation(t, env, request, Kept(request.images)).images| == |t.images| + m
            && var products := AfterCreation(t, env, request, Kept(request.images)).products;
               |products| == |t.products| + 1 && products[|t.products|].primaryImageID.None?)
  {
    var sku, kept := request.template.sku, Kept(request.images);
    if !env.imager(sku, m, kept[m]).Stored? {
      var stored := StoredCount(sku, kept, env.imager);
      assert stored == m;
    }
  }

  // ----- what an unfinished handler leaves in the transaction -----

  lemma LiveRootUnique(t: Tables, tp: Template)
    requires UniqueKeys(t)
    ensures UniqueKeys(InsertRoot(t, RootRow(tp)))
  {
  }

  /** An option without some of its values is below the whole option. */
  lemma PartOfOption(t: Tables, rootID: nat, o: OptionInput, i: nat)
    requires i <= |o.values|
    ensures Grows(t.(options := t.options + [OptionRow(rootID, o.name, None)],
                     values := t.values + ValueRows(|t.options|, o.values[..i])),
                  AddOption(t, rootID, o))
  {
  }

  lemma PartRefused(part: Tables, whole: Tables)
    requires Grows(part, whole)
    ensures !UniqueKeys(part) ==> !UniqueKeys(whole)
  {
    if UniqueKeys(whole) {
      KeysOfPrefix(part, whole);
    }
  }

  /** What part of a list of options may not hold, the whole list may not either. */
  lemma PartOfOptions(t: Tables, rootID: nat, os: seq<OptionInput>, i: nat)
    requires i < |os| && !UniqueKeys(AddOption(AddOptions(t, rootID, os[..i]), rootID, os[i]))
    ensures !UniqueKeys(AddOptions(t, rootID, os))
  {
    assert os[..i + 1][..i] == os[..i];
    OptionsGrow(t, rootID, os, i + 1);
    if UniqueKeys(AddOptions(t, rootID, os)) {
      KeysOfPrefix(AddOptions(t, rootID, os[..i + 1]), AddOptions(t, rootID, os));
    }
  }

  lemma PartOfVariants(t: Tables, rootID: nat, vs: seq<Variant>, i: nat)
    requires i < |vs| && !UniqueKeys(AddVariant(AddVariants(t, rootID, vs[..i]), rootID, vs[i]))
    ensures !UniqueKeys(AddVariants(t, rootID, vs))
  {
    assert vs[..i + 1][..i] == vs[..i];
    VariantsGrow(t, rootID, vs, i + 1);
    if UniqueKeys(AddVariants(t, rootID, vs)) {
      KeysOfPrefix(AddVariants(t, rootID, vs[..i + 1]), AddVariants(t, rootID, vs));
    }
  }

  lemma PrimaryIsNoKey(t: Tables, tp: Template, rootID: nat, primary: Option<nat>)
    ensures UniqueKeys(InsertProduct(t, PlainRow(tp, rootID, None)))
       <==> UniqueKeys(InsertProduct(t, PlainRow(tp, rootID, primary)))
  {
    SameProductColumns(t.products + [PlainRow(tp, rootID, None)], t.products + [PlainRow(tp, rootID, primary)]);
  }

  /** A creation followed by a lookup. */
  lemma CreatedColumns(t: Tables, env: Environment, request: CreationInput, t': Tables)
    requires t' == AfterCreation(t, env, request, Kept(request.images))
    ensures var r, tp := |t.roots|, request.template;
      && |t'.roots| == r + 1
      && t'.roots[r].name == tp.name && t'.roots[r].skuPrefix == tp.sku
      && t'.roots[r].quantityPerPackage == (if tp.quantityPerPackage == 0 then 1 else tp.quantityPerPackage)
      && t'.roots[r].archivedOn.None?
    ensures request.options == [] ==>
      var p, tp := |t.products|, request.template;
      && |t'.products| == p + 1
      && LiveSku(t', p, tp.sku)
      && t'.products[p].rootID == |t.roots|
      && t'.products[p].name == tp.name && t'.products[p].sku == tp.sku
      && t'.products[p].upc == tp.upc && t'.products[p].optionSummary == ""
      && t'.products[p].quantityPerPackage == (if tp.quantityPerPackage == 0 then 1 else tp.quantityPerPackage)
  {
    RootColumns(t, env, request, Kept(request.images));
    if request.options == [] {
      PlainColumns(t, env, request, Kept(request.images));
    }
  }

  lemma PatchIsEffect(t: Tables, sku: string, p: nat, patch: ProductPatch, t': Tables)
    requires LiveSku(t, p, sku) && PatchAccepted(t, p, patch)
    requires t' == t || (UniqueKeys(t') && t' == ProductPatched(t, p, patch))
    ensures Effect(t, PatchProduct(sku, patch), 0, t')
  {
  }

  /** After an update each column of the addressed row is the body's, if it gives one, and else that of the
      existing product; its archive stamp and every other row are untouched. */
  lemma PatchedColumns(t: Tables, p: nat, patch: ProductPatch, t': Tables)
    requires PatchAccepted(t, p, patch) && t' == ProductPatched(t, p, patch)
    ensures
      var id := if patch.id.Some? then patch.id.value else p;
      && t' == t.(products := t'.products)
      && |t'.products| == |t.products|
      && p < |t'.products| && id < |t'.products|
      && (forall i :: 0 <= i < |t'.products| && i != id ==> t'.products[i] == t.products[i])
      && var existing, row := t.products[p], t'.products[id];
      && row.rootID == (if patch.rootID.Some? then patch.rootID.value else existing.rootID)
      && row.primaryImageID == (if patch.primaryImageID.Some? then patch.primaryImageID
                                else existing.primaryImageID)
      && row.name == (if patch.name != "" then patch.name else existing.name)
      && row.sku == (if patch.sku != "" then patch.sku else existing.sku)
      && row.upc == (if patch.upc != "" then patch.upc else existing.upc)
      && row.optionSummary == (if patch.optionSummary != "" then patch.optionSummary else existing.optionSummary)
      && row.quantityPerPackage == (if patch.quantityPerPackage != 0 then patch.quantityPerPackage
                                    else existing.quantityPerPackage)
      && row.archivedOn == t.products[id].archivedOn
  {
  }

  function WithVariants(t: Tables, rootID: nat, env: Environment, request: CreationInput): Tables {
    AddVariants(AddOptions(t, rootID, request.options), rootID,
                AllVariants(request.template, env.lower, CreatedOptions(t, rootID, request.options)))
  }

  lemma VariantsCarryValues(tp: Template, lower: string -> string, created: seq<ProductOption>)
    requires created != []
    ensures forall k :: 0 <= k < |AllVariants(tp, lower, created)| ==>
      |AllVariants(tp, lower, created)[k].values| == |created|
  {
  }

  /** How a creation whose images went well ends. */
  lemma StatusAfterImages(readsGroups: bool, t: Tables, env: Environment, request: CreationInput)
    requires References(t) && UniqueKeys(t)
    requires RestrictedStringIsValid(request.template.sku) && !PrefixTaken(t, request.template.sku)
    requires var end := EndOfImages(env, request.template.sku, Kept(request.images)); !end.BadImage? && !end.Panic?
    ensures var t1 := WithRootAndImages(t, env, request, Kept(request.images));
      CreationStatus(readsGroups, t, env, Some(request)) ==
        if request.options == [] then
          if UniqueKeys(InsertProduct(t1, NewProduct(t, env, request, Kept(request.images)))) then Created201
          else Internal500
        else if !UniqueKeys(AddOptions(t1, |t.roots|, request.options)) then Internal500
        else if GeneratorPanics(request.options) then Crashed
        else if !UniqueKeys(WithVariants(t1, |t.roots|, env, request)) then Internal500
        else if !BridgesTaken(readsGroups, |request.options|, Combinations(InputSizes(request.options)))
        then Internal500
        else Created201
  {
    AfterCreationUniqueIff(t, env, request, Kept(request.images));
    CreationOptionsUniqueIff(t, env, request, Kept(request.images));
  }

  /** One more archive update of a root deletion, and when it may be refused. */
  lemma CascadeStep(t: Tables, done: set<ArchiveOp>, op: ArchiveOp, r: nat, now: Time)
    requires UniqueKeys(t)
    ensures Apply(Masked(t, done, r, now), op, r, now) == Masked(t, done + {op}, r, now)
    ensures FreshStamp(t, now) && !SharedValueText(t, r) && !SharedSku(t, r) ==>
      UniqueKeys(Masked(t, done + {op}, r, now))
  {
    ApplyMasked(t, done, op, r, now);
    if FreshStamp(t, now) {
      MaskedUniqueIff(t, done + {op}, r, now);
    }
  }

  class Database {
    const fault: nat -> Fault
    /** The store reads the parenthesised groups that the bulk insert of bridges prints for two or more
        values as so many rows; otherwise it refuses the statement. */
    const readsGroups: bool
    var calls: nat
    /** The committed tables. */
    var tables: Tables
    /** The handler's transaction. */
    var pending: Option<Tables>
    /** Transactions begun and neither committed nor rolled back. */
    var open: nat

    constructor (fault: nat -> Fault, readsGroups: bool)
      ensures Valid() && tables == Empty() && pending.None? && open == 0
      ensures this.fault == fault && this.readsGroups == readsGroups
    {
      this.fault, this.readsGroups := fault, readsGroups;
      calls, tables, pending, open := 0, Empty(), None, 0;
    }

    /** No call fails, unless a constraint is violated or a statement is not understood. */
    ghost predicate Healthy() {
      forall n: nat :: fault(n) == NoFault
    }

    /** The database holds no rows that its UNIQUE constraints forbid. */
    ghost predicate Valid()
      reads this
    {
      UniqueKeys(tables) && (pending.Some? ==> UniqueKeys(pending.value))
    }

    // ----- the store -----

    method Call() returns (f: Fault)
      modifies this`calls
      ensures Healthy() ==> f == NoFault
    {
      f := fault(calls);
      calls := calls + 1;
    }

    /** A query outside the transaction. */
    method Fetch(present: bool) returns (r: Answer)
      modifies this`calls
      ensures r != Broken ==> r == if present then Hit else NoRows
      ensures Healthy() ==> r != Broken
    {
      var f := Call();
      return if f != NoFault then Broken else if present then Hit else NoRows;
    }

    method GetProductBySKU(sku: string) returns (r: Answer, p: nat)
      modifies this`calls
      ensures r == Hit ==> LiveSku(tables, p, sku)
      ensures r == NoRows ==> forall i: nat :: !LiveSku(tables, i, sku)
      ensures Healthy() ==> r != Broken
    {
      var f := Call();
      if f != NoFault {
        return Broken, 0;
      }
      if i: nat :| i < |tables.products| && LiveSku(tables, i, sku) {
        return Hit, i;
      }
      return NoRows, 0;
    }

    /** A single statement that commits by itself. */
    method ExecDirect(next: Tables, returned: bool) returns (r: Answer)
      requires Valid()
      modifies this`calls, this`tables
      ensures Valid()
      ensures tables == next || (r == Broken && tables == old(tables))
      ensures r != Broken ==> r == if returned then Hit else NoRows
      ensures Healthy() ==> (r == Broken <==> !UniqueKeys(next))
    {
      var f := Call();
      if !UniqueKeys(next) {
        return Broken;
      }
      if f != Fails {
        tables := next;
      }
      return if f != NoFault then Broken else if returned then Hit else NoRows;
    }

    method Begin() returns (ok: bool)
      requires Valid()
      modifies this`calls, this`pending, this`open
      ensures Valid()
      ensures ok ==> pending == Some(tables) && open == old(open) + 1
      ensures !ok ==> pending == old(pending) && open == old(open)
      ensures Healthy() ==> ok
    {
      var f := Call();
      ok := f == NoFault;
      if ok {
        pending, open := Some(tables), open + 1;
      }
    }

    /** A statement inside the transaction; returned says whether it returns a row. */
    method Exec(next: Tables, returned: bool) returns (r: Answer)
      requires Valid() && pending.Some?
      modifies this`calls, this`pending
      ensures Valid()
      ensures r == Broken ==> pending == old(pending)
      ensures r != Broken ==> pending == Some(next) && r == if returned then Hit else NoRows
      ensures Healthy() ==> (r == Broken <==> !UniqueKeys(next))
    {
      var f := Call();
      if f != NoFault || !UniqueKeys(next) {
        return Broken;
      }
      pending := Some(next);
      return if returned then Hit else NoRows;
    }

    method Rollback()
      requires Valid() && pending.Some? && open > 0
      modifies this`pending, this`open
      ensures Valid() && pending.None? && open == old(open) - 1
    {
      pending, open := None, open - 1;
    }

    method Commit() returns (ok: bool)
      requires Valid() && pending.Some? && open > 0
      modifies this`calls, this`tables, this`pending, this`open
      ensures Valid() && pending.None? && open == old(open) - 1
      ensures tables == old(pending.value) || (!ok && tables == old(tables))
      ensures Healthy() ==> ok
    {
      var f := Call();
      if f != Fails {
        tables := pending.value;
      }
      pending, open := None, open - 1;
      return f == NoFault;
    }

    // ----- product creation -----

    method CreateImage(row: Image) returns (r: Answer)
      requires Valid() && pending.Some?
      modifies this`calls, this`pending
      ensures Valid() && pending.Some?
      ensures r == Hit ==> pending.value == InsertImage(old(pending.value), row)
      ensures Healthy() ==> r == Hit
    {
      r := Exec(InsertImage(pending.value, row), true);
    }

    /** Stores the images that are left after de-duplication, one after the other. */
    method CreateImages(env: Environment, imagesToCreate: seq<ImageInput>, sku: string, rootID: nat)
      returns (r: ImageResult)
      requires Valid() && pending.Some?
      modifies this`calls, this`pending
      ensures Valid() && pending.Some?
      ensures r.Images? ==>
        ImagesDone(old(pending.value), pending.value, env, sku, imagesToCreate, rootID, r.ids, r.primary)
      ensures Healthy() ==>
        && (r.ImagesFailed? <==> EndOfImages(env, sku, imagesToCreate).BadImage?)
        && (r.ImagesPanicked? <==> EndOfImages(env, sku, imagesToCreate).Panic?)
    {
      ghost var base := pending.value;
      var firstID := |pending.value.images|;
      var ids: seq<nat>, primaryImageID: Option<nat> := [], None;
      ImagesStart(base, env, sku, imagesToCreate, rootID);
      for i := 0 to |imagesToCreate|
        invariant Valid() && pending.Some?
        invariant ImagesSoFar(base, pending.value, env, sku, imagesToCreate, rootID, i, ids, primaryImageID)
      {
        var img := imagesToCreate[i];
        var outcome := env.imager(sku, i, img);
        if !outcome.Stored? {
          ImagesEndAt(base, pending.value, env, sku, imagesToCreate, rootID, i, ids, primaryImageID);
          return match outcome
                 case Rejected => ImagesFailed
                 case ImagePanic => ImagesPanicked
                 case _ => Images([], None);
        }
        ImagesNext(base, pending.value, env, sku, imagesToCreate, rootID, i, ids, primaryImageID);
        var row := CreateImage(ImageRow(env, sku, i, img, rootID));
        if row != Hit {
          return ImagesFailed;
        }
        if img.isPrimary && primaryImageID.None? {
          primaryImageID := Some(firstID + i);
        }
        ids := ids + [firstID + i];
      }
      ImagesEndAt(base, pending.value, env, sku, imagesToCreate, rootID, |imagesToCreate|, ids, primaryImageID);
      return Images(ids, primaryImageID);
    }

    /** handleProductCreationImages. */
    method HandleProductCreationImages(env: Environment, images: seq<ImageInput>, sku: string, rootID: nat)
      returns (r: ImageResult)
      requires Valid() && pending.Some?
      modifies this`calls, this`pending
      ensures Valid() && pending.Some?
      ensures r.Images? ==>
        ImagesDone(old(pending.value), pending.value, env, sku, Kept(images), rootID, r.ids, r.primary)
      ensures Healthy() ==>
        && (r.ImagesFailed? <==> EndOfImages(env, sku, Kept(images)).BadImage?)
        && (r.ImagesPanicked? <==> EndOfImages(env, sku, Kept(images)).Panic?)
    {
      var imagesToCreate := Dedupe(images);
      r := CreateImages(env, imagesToCreate, sku, rootID);
    }

    /** createProductOptionAndValuesInDBFromInput. */
    method CreateProductOptionAndValues(o: OptionInput, rootID: nat) returns (r: Option<ProductOption>)
      requires Valid() && pending.Some?
      modifies this`calls, this`pending
      ensures Valid() && pending.Some?
      ensures r.Some? ==> pending.value == AddOption(old(pending.value), rootID, o)
      ensures r.Some? ==> r.value == CreatedOption(old(pending.value), o)
      ensures Healthy() ==> (r.Some? <==> UniqueKeys(AddOption(old(pending.value), rootID, o)))
    {
      ghost var base := pending.value;
      var optionID, firstID := |pending.value.options|, |pending.value.values|;
      assert base.values == base.values + ValueRows(optionID, o.values[..0]);
      PartOfOption(base, rootID, o, 0);
      var created := Exec(InsertOption(pending.value, OptionRow(rootID, o.name, None)), true);
      if created != Hit {
        PartRefused(base.(options := base.options + [OptionRow(rootID, o.name, None)]), AddOption(base, rootID, o));
        return None;
      }
      var values: seq<OptionValue> := [];
      for i := 0 to |o.values|
        invariant Valid()
        invariant pending == Some(base.(options := base.options + [OptionRow(rootID, o.name, None)],
                                        values := base.values + ValueRows(optionID, o.values[..i])))
        invariant values == CreatedOption(base, o).values[..i]
      {
        assert base.values + ValueRows(optionID, o.values[..i + 1])
            == base.values + ValueRows(optionID, o.values[..i]) + [ValueRow(optionID, o.values[i], None)];
        ghost var next := InsertValue(pending.value, ValueRow(optionID, o.values[i], None));
        PartOfOption(base, rootID, o, i + 1);
        var row := Exec(InsertValue(pending.value, ValueRow(optionID, o.values[i], None)), true);
        if row != Hit {
          PartRefused(next, AddOption(base, rootID, o));
          return None;
        }
        values := values + [OptionValue(firstID + i, o.values[i])];
      }
      assert o.values[..|o.values|] == o.values;
      return Some(ProductOption(optionID, o.name, values));
    }

    method CreateOptions(os: seq<OptionInput>, rootID: nat) returns (r: Option<seq<ProductOption>>)
      requires Valid() && pending.Some?
      modifies this`calls, this`pending
      ensures Valid() && pending.Some?
      ensures r.Some? ==> pending.value == AddOptions(old(pending.value), rootID, os)
      ensures r.Some? ==> r.value == CreatedOptions(old(pending.value), rootID, os)
      ensures Healthy() ==> (r.Some? <==> UniqueKeys(AddOptions(old(pending.value), rootID, os)))
    {
      ghost var base := pending.value;
      var created: seq<ProductOption> := [];
      for i := 0 to |os|
        invariant Valid()
        invariant pending == Some(AddOptions(base, rootID, os[..i]))
        invariant created == CreatedOptions(base, rootID, os[..i])
      {
        assert os[..i + 1][..i] == os[..i];
        ghost var next := AddOption(pending.value, rootID, os[i]);
        var o := CreateProductOptionAndValues(os[i], rootID);
        if o.None? {
          if !UniqueKeys(next) {
            PartOfOptions(base, rootID, os, i);
          }
          return None;
        }
        created := created + [o.value];
      }
      assert os[..|os|] == os;
      return Some(created);
    }

    /** CreateMultipleProductVariantBridgesForProductID: runs the printed bulk insert. */
    method CreateBridges(productID: nat, vs: seq<OptionValue>) returns (ok: bool)
      requires Valid() && pending.Some? && vs != []
      modifies this`calls, this`pending
      ensures Valid() && pending.Some?
      ensures ok ==> pending.value == InsertBridges(old(pending.value), BridgePairs(productID, vs))
      ensures ok ==> readsGroups || |vs| == 1
      ensures Healthy() ==> (ok <==> readsGroups || |vs| == 1)
    {
      var optionIDs := seq(|vs|, i requires 0 <= i < |vs| => vs[i].id);
      var text, args := BuildMultiBridgeValues(productID, optionIDs);
      BridgeTextRoundTrip(productID, optionIDs);
      if !readsGroups && |vs| > 1 {
        var f := Call();
        return false;
      }
      var rows := InsertedRows(text, args);
      assert rows.value == BridgePairs(productID, vs);
      var r := Exec(InsertBridges(pending.value, rows.value), true);
      return r == Hit;
    }

    predicate BridgesOf(vs: seq<Variant>) {
      forall k :: 0 <= k < |vs| ==> readsGroups || |vs[k].values| == 1
    }

    /** Inserts each product and then its bridges. */
    method CreateVariants(vs: seq<Variant>, rootID: nat) returns (ok: bool)
      requires Valid() && pending.Some? && forall k :: 0 <= k < |vs| ==> vs[k].values != []
      modifies this`calls, this`pending
      ensures Valid() && pending.Some?
      ensures ok ==> pending.value == AddVariants(old(pending.value), rootID, vs)
      ensures Healthy() ==> (ok <==> UniqueKeys(AddVariants(old(pending.value), rootID, vs)) && BridgesOf(vs))
    {
      ghost var base := pending.value;
      for i := 0 to |vs|
        invariant Valid()
        invariant pending == Some(AddVariants(base, rootID, vs[..i]))
        invariant forall k :: 0 <= k < i ==> readsGroups || |vs[k].values| == 1
      {
        assert vs[..i + 1][..i] == vs[..i];
        ghost var next := AddVariant(pending.value, rootID, vs[i]);
        var productID := |pending.value.products|;
        var p := Exec(InsertProduct(pending.value, VariantRow(vs[i], rootID)), true);
        if p != Hit {
          if !UniqueKeys(next) {
            PartOfVariants(base, rootID, vs, i);
          }
          return false;
        }
        ok := CreateBridges(productID, vs[i].values);
        if !ok {
          return;
        }
      }
      assert vs[..|vs|] == vs;
      return true;
    }

    /** createProductsInDBFromOptions. */
    method CreateProductsFromOptions(tp: Template, lower: string -> string, created: seq<ProductOption>, rootID: nat)
      returns (r: VariantResult)
      requires Valid() && pending.Some?
      modifies this`calls, this`pending
      ensures Valid() && pending.Some?
      ensures r.VariantsStored? ==>
        pending.value == AddVariants(old(pending.value), rootID, AllVariants(tp, lower, created))
      ensures r.VariantsPanicked? <==> Panics(created)
      ensures Healthy() && !Panics(created) ==>
        (r.VariantsStored? <==>
           && UniqueKeys(AddVariants(old(pending.value), rootID, AllVariants(tp, lower, created)))
           && BridgesTaken(readsGroups, |created|, Combinations(Sizes(created))))
    {
      var outcome := BuildProductsFromOptions(tp, lower, created);
      if outcome.IndexPanic? {
        return VariantsPanicked;
      }
      VariantsCarryValues(tp, lower, created);
      var ok := CreateVariants(outcome.variants, rootID);
      return if ok then VariantsStored else VariantsFailed;
    }

    /** The branch of the creation handler without options. */
    method CreatePlainProduct(tp: Template, rootID: nat, ids: seq<nat>, primary: Option<nat>) returns (ok: bool)
      requires Valid() && pending.Some?
      modifies this`calls, this`pending
      ensures Valid() && pending.Some?
      ensures ok ==> pending.value == InsertProduct(old(pending.value),
        PlainRow(tp, rootID, ChoosePrimary(ids, primary)))
      ensures Healthy() ==> (ok <==>
        UniqueKeys(InsertProduct(old(pending.value), PlainRow(tp, rootID, ChoosePrimary(ids, primary)))))
    {
      ghost var base := pending.value;
      PrimaryIsNoKey(base, tp, rootID, ChoosePrimary(ids, primary));
      var productID := |pending.value.products|;
      var p := Exec(InsertProduct(pending.value, PlainRow(tp, rootID, None)), true);
      if p != Hit {
        return false;
      }
      if |ids| > 0 {
        var imageID := if primary.Some? then primary.value else ids[0];
        assert SetPrimary(pending.value, productID, imageID).products
            == base.products + [PlainRow(tp, rootID, Some(imageID))];
        var s := Exec(SetPrimary(pending.value, productID, imageID), true);
        if s != Hit {
          return false;
        }
      }
      return true;
    }

    /** The branch of the creation handler with options. */
    method CreateOptionsAndProducts(env: Environment, request: CreationInput, rootID: nat) returns (status: Status)
      requires Valid() && pending.Some? && request.options != []
      modifies this`calls, this`pending
      ensures Valid() && pending.Some?
      ensures status == Created201 || status == Internal500 || status == Crashed
      ensures status == Created201 ==>
        pending.value == WithVariants(old(pending.value), rootID, env, request)
      ensures Healthy() ==>
        status == (if !UniqueKeys(AddOptions(old(pending.value), rootID, request.options)) then Internal500
                   else if GeneratorPanics(request.options) then Crashed
                   else if !UniqueKeys(WithVariants(old(pending.value), rootID, env, request)) then Internal500
                   else if !BridgesTaken(readsGroups, |request.options|, Combinations(InputSizes(request.options)))
                   then Internal500 else Created201)
    {
      CreatedSizes(pending.value, rootID, request.options);
      PanicsOnInput(pending.value, rootID, request.options);
      var options := CreateOptions(request.options, rootID);
      if options.None? {
        return Internal500;
      }
      var products := CreateProductsFromOptions(request.template, env.lower, options.value, rootID);
      return match products
             case VariantsStored => Created201
             case VariantsFailed => Internal500
             case VariantsPanicked => Crashed;
    }

    /** The handler between Begin and Commit. */
    method FillCreation(env: Environment, request: CreationInput) returns (status: Status)
      requires Valid() && pending.Some?
      modifies this`calls, this`pending
      ensures Valid() && pending.Some?
      ensures status == Created201 || status == Internal500 || status == Crashed
      ensures status == Created201 ==>
        pending.value == AfterCreation(old(pending.value), env, request, Kept(request.images))
      ensures Healthy() && References(old(pending.value)) ==>
        || !RestrictedStringIsValid(request.template.sku)
        || PrefixTaken(old(pending.value), request.template.sku)
        || status == CreationStatus(readsGroups, old(pending.value), env, Some(request))
    {
      ghost var base := pending.value;
      var rootID := |pending.value.roots|;
      LiveRootUnique(base, request.template);
      var root := Exec(InsertRoot(pending.value, RootRow(request.template)), true);
      if root != Hit {
        return Internal500;
      }
      var images := HandleProductCreationImages(env, request.images, request.template.sku, rootID);
      if !images.Images? {
        return if images.ImagesFailed? then Internal500 else Crashed;
      }
      assert pending.value == WithRootAndImages(base, env, request, Kept(request.images));
      if References(base) && RestrictedStringIsValid(request.template.sku)
         && !PrefixTaken(base, request.template.sku)
      {
        StatusAfterImages(readsGroups, base, env, request);
      }
      if |request.options| == 0 {
        var ok := CreatePlainProduct(request.template, rootID, images.ids, images.primary);
        return if ok then Created201 else Internal500;
      }
      status := CreateOptionsAndProducts(env, request, rootID);
    }

    /** The handler from Begin to Commit. */
    method StoreCreation(env: Environment, request: CreationInput) returns (status: Status)
      requires Valid()
      modifies this
      ensures Valid()
      ensures tables == old(tables) || tables == AfterCreation(old(tables), env, request, Kept(request.images))
      ensures status == Created201 || status == Internal500 || status == Crashed
      ensures status == Created201 ==> tables == AfterCreation(old(tables), env, request, Kept(request.images))
      ensures status == Crashed ==> tables == old(tables)
      ensures open == old(open) + if status == Crashed then 1 else 0
      ensures Healthy() && References(old(tables)) ==>
        || !RestrictedStringIsValid(request.template.sku)
        || PrefixTaken(old(tables), request.template.sku)
        || status == CreationStatus(readsGroups, old(tables), env, Some(request))
    {
      var ok := Begin();
      if !ok {
        return Internal500;
      }
      status := FillCreation(env, request);
      if status == Crashed {
        return;
      }
      if status == Internal500 {
        Rollback();
        return;
      }
      ok := Commit();
      return if ok then Created201 else Internal500;
    }

    /** The handler for a body that decodes. */
    method CreateDecoded(env: Environment, request: CreationInput) returns (status: Status)
      requires Valid()
      modifies this
      ensures Valid()
      ensures Effect(old(tables), Request.CreateProduct(env, request), 0, tables)
      ensures tables == old(tables) || tables == AfterCreation(old(tables), env, request, Kept(request.images))
      ensures status == Created201 ==> tables == AfterCreation(old(tables), env, request, Kept(request.images))
      ensures status == BadRequest400 || status == Crashed ==> tables == old(tables)
      ensures open == old(open) + if status == Crashed then 1 else 0
      ensures Healthy() ==>
        (status == BadRequest400 <==>
           !RestrictedStringIsValid(request.template.sku) || PrefixTaken(old(tables), request.template.sku))
      ensures Healthy() && References(old(tables)) ==>
        || status == BadRequest400
        || status == CreationStatus(readsGroups, old(tables), env, Some(request))
    {
      if !RestrictedStringIsValid(request.template.sku) {
        return BadRequest400;
      }
      var taken := Fetch(PrefixTaken(tables, request.template.sku));
      if taken != NoRows {
        return BadRequest400;
      }
      status := StoreCreation(env, request);
      if status != Created201 {
        return;
      }
      var webhooks := Fetch(true);
      return if webhooks == Broken then Internal500 else Created201;
    }

    /** The product creation handler; None is a body that does not decode. */
    method CreateProduct(env: Environment, input: Option<CreationInput>) returns (status: Status)
      requires Valid()
      modifies this
      ensures Valid()
      ensures input.None? ==> tables == old(tables)
      ensures input.Some? ==>
        && Effect(old(tables), Request.CreateProduct(env, input.value), 0, tables)
        && (tables == old(tables) || tables == AfterCreation(old(tables), env, input.value, Kept(input.value.images)))
      ensures status == Created201 ==>
        input.Some? && tables == AfterCreation(old(tables), env, input.value, Kept(input.value.images))
      ensures status == Created201 ==>
        var r, tp := |old(tables).roots|, input.value.template;
        && |tables.roots| == r + 1
        && tables.roots[r].name == tp.name && tables.roots[r].skuPrefix == tp.sku
        && tables.roots[r].quantityPerPackage == (if tp.quantityPerPackage == 0 then 1 else tp.quantityPerPackage)
        && tables.roots[r].archivedOn.None?
      ensures status == Created201 && input.value.options == [] ==>
        var p, tp := |old(tables).products|, input.value.template;
        && |tables.products| == p + 1
        && LiveSku(tables, p, tp.sku)
        && tables.products[p].rootID == |old(tables).roots|
        && tables.products[p].name == tp.name && tables.products[p].sku == tp.sku
        && tables.products[p].upc == tp.upc && tables.products[p].optionSummary == ""
        && tables.products[p].quantityPerPackage == (if tp.quantityPerPackage == 0 then 1 else tp.quantityPerPackage)
      ensures status == BadRequest400 || status == Crashed ==> tables == old(tables)
      ensures open == old(open) + if status == Crashed then 1 else 0
      ensures Healthy() ==> (status == BadRequest400 <==>
        || input.None?
        || !RestrictedStringIsValid(input.value.template.sku)
        || exists i :: 0 <= i < |old(tables).roots| && old(tables).roots[i].archivedOn.None?
                       && old(tables).roots[i].skuPrefix == input.value.template.sku)
      ensures Healthy() && References(old(tables)) ==> status == CreationStatus(readsGroups, old(tables), env, input)
    {
      if input.None? {
        return BadRequest400;
      }
      status := CreateDecoded(env, input.value);
      if status == Created201 {
        CreatedColumns(old(tables), env, input.value, tables);
      }
    }

    // ----- deletions -----

    /** One archive statement of a root deletion, after those in done. */
    method Archive(op: ArchiveOp, r: nat, now: Time, returned: bool, ghost base: Tables, ghost done: set<ArchiveOp>)
      returns (a: Answer)
      requires Valid() && UniqueKeys(base) && pending == Some(Masked(base, done, r, now))
      modifies this`calls, this`pending
      ensures Valid() && pending.Some?
      ensures a != Broken ==>
        pending.value == Masked(base, done + {op}, r, now) && a == if returned then Hit else NoRows
      ensures Healthy() && a == Broken && FreshStamp(base, now) ==> SharedValueText(base, r) || SharedSku(base, r)
    {
      CascadeStep(base, done, op, r, now);
      a := Exec(Apply(pending.value, op, r, now), returned);
    }

    /** The five archive statements of a root deletion; the first four may report sql.ErrNoRows. */
    method ArchiveAll(r: nat, now: Time) returns (ok: bool)
      requires Valid() && pending.Some? && r < |pending.value.roots|
      modifies this`calls, this`pending
      ensures Valid() && pending.Some?
      ensures ok ==> pending.value == RootDeleted(old(pending.value), r, now)
      ensures Healthy() && !ok && FreshStamp(old(pending.value), now) ==>
        SharedValueText(old(pending.value), r) || SharedSku(old(pending.value), r)
    {
      ghost var base := pending.value;
      var a := Archive(BridgesOp, r, now, false, base, {});
      if a == Broken {
        return false;
      }
      a := Archive(ValuesOp, r, now, false, base, {BridgesOp});
      if a == Broken {
        return false;
      }
      a := Archive(OptionsOp, r, now, false, base, {BridgesOp, ValuesOp});
      if a == Broken {
        return false;
      }
      a := Archive(ProductsOp, r, now, HasProducts(pending.value, r), base, {BridgesOp, ValuesOp, OptionsOp});
      if a == Broken {
        return false;
      }
      a := Archive(RootOp, r, now, r < |pending.value.roots|, base, {BridgesOp, ValuesOp, OptionsOp, ProductsOp});
      RootDeletedIsMasked(base, r, now);
      return a == Hit;
    }

    /** The root deletion handler. */
    method DeleteRoot(r: nat, now: Time) returns (status: Status)
      requires Valid()
      modifies this
      ensures Valid()
      ensures Effect(old(tables), Request.DeleteRoot(r), now, tables)
      ensures status == OK200 ==> LiveRoot(old(tables), r) && tables == RootDeleted(old(tables), r, now)
      ensures status == NotFound404 ==> !LiveRoot(old(tables), r) && tables == old(tables)
      ensures open == old(open)
      ensures Healthy() && FreshStamp(old(tables), now) ==>
        status == (if !LiveRoot(old(tables), r) then NotFound404
                   else if SharedValueText(old(tables), r) || SharedSku(old(tables), r) then Internal500 else OK200)
    {
      if FreshStamp(tables, now) {
        RootDeletionUniqueIff(tables, r, now);
      }
      var found := Fetch(LiveRoot(tables, r));
      if found != Hit {
        return if found == NoRows then NotFound404 else Internal500;
      }
      var ok := Begin();
      if !ok {
        return Internal500;
      }
      ok := ArchiveAll(r, now);
      if !ok {
        Rollback();
        return Internal500;
      }
      ok := Commit();
      return if ok then OK200 else Internal500;
    }

    /** The two archive statements of a product deletion; the first may report sql.ErrNoRows. */
    method ArchiveProductAndBridges(p: nat, now: Time) returns (ok: bool)
      requires Valid() && pending.Some? && p < |pending.value.products|
      modifies this`calls, this`pending
      ensures Valid() && pending.Some?
      ensures ok ==> pending.value == ProductDeleted(old(pending.value), p, now)
      ensures Healthy() && FreshStamp(old(pending.value), now) ==> ok
    {
      if FreshStamp(pending.value, now) {
        SmallDeletionsKeepUnique(pending.value, p, now);
      }
      var a := Exec(ArchiveBridgesOfProduct(pending.value, p, now), HasLiveBridges(pending.value, p));
      if a == Broken {
        return false;
      }
      a := Exec(ArchiveProduct(pending.value, p, now), p < |pending.value.products|);
      return a == Hit;
    }

    method DeleteProduct(sku: string, now: Time) returns (status: Status, p: nat)
      requires Valid()
      modifies this
      ensures Valid()
      ensures Effect(old(tables), Request.DeleteProduct(sku), now, tables)
      ensures status == OK200 ==> LiveSku(old(tables), p, sku) && tables == ProductDeleted(old(tables), p, now)
      ensures status == NotFound404 ==> tables == old(tables) && forall i: nat :: !LiveSku(old(tables), i, sku)
      ensures open == old(open)
      ensures Healthy() && FreshStamp(old(tables), now) ==>
        status == OK200 || (status == NotFound404 && forall i: nat :: !LiveSku(old(tables), i, sku))
    {
      var found;
      found, p := GetProductBySKU(sku);
      if found != Hit {
        return if found == NoRows then NotFound404 else Internal500, p;
      }
      var ok := Begin();
      if !ok {
        return Internal500, p;
      }
      ok := ArchiveProductAndBridges(p, now);
      if !ok {
        Rollback();
        return Internal500, p;
      }
      ok := Commit();
      if !ok {
        return Internal500, p;
      }
      var webhooks := Fetch(true);
      return if webhooks == Broken then Internal500 else OK200, p;
    }

    /** The two archive statements of an option deletion; neither may report sql.ErrNoRows. */
    method ArchiveOptionAndValues(o: nat, now: Time) returns (ok: bool)
      requires Valid() && pending.Some? && o < |pending.value.options|
      modifies this`calls, this`pending
      ensures Valid() && pending.Some?
      ensures ok ==> pending.value == OptionDeleted(old(pending.value), o, now) && HasValues(old(pending.value), o)
      ensures Healthy() && FreshStamp(old(pending.value), now) ==> (ok <==> HasValues(old(pending.value), o))
    {
      if FreshStamp(pending.value, now) {
        SmallDeletionsKeepUnique(pending.value, o, now);
      }
      var a := Exec(ArchiveValuesOfOption(pending.value, o, now), HasValues(pending.value, o));
      if a != Hit {
        return false;
      }
      a := Exec(ArchiveOption(pending.value, o, now), o < |pending.value.options|);
      return a == Hit;
    }

    /** The option deletion handler. Archiving the values of an option that never had one reports
        sql.ErrNoRows, which this handler does not tolerate; its error paths leave the transaction open. */
    method DeleteOption(o: nat, now: Time) returns (status: Status)
      requires Valid()
      modifies this
      ensures Valid()
      ensures Effect(old(tables), Request.DeleteOption(o), now, tables)
      ensures status == OK200 ==>
        LiveOption(old(tables), o) && HasValues(old(tables), o) && tables == OptionDeleted(old(tables), o, now)
      ensures status == NotFound404 ==> !LiveOption(old(tables), o) && tables == old(tables)
      ensures open == old(open) || (open == old(open) + 1 && status == Internal500 && tables == old(tables))
      ensures Healthy() && FreshStamp(old(tables), now) ==>
        && status == (if !LiveOption(old(tables), o) then NotFound404
                      else if HasValues(old(tables), o) then OK200 else Internal500)
        && open == old(open) + if LiveOption(old(tables), o) && !HasValues(old(tables), o) then 1 else 0
      ensures Healthy() && FreshStamp(old(tables), now) ==> (status == OK200 <==>
        && o < |old(tables).options| && old(tables).options[o].archivedOn.None?
        && exists v :: 0 <= v < |old(tables).values| && old(tables).values[v].optionID == o)
    {
      var found := Fetch(LiveOption(tables, o));
      if found != Hit {
        return if found == NoRows then NotFound404 else Internal500;
      }
      var ok := Begin();
      if !ok {
        return Internal500;
      }
      ok := ArchiveOptionAndValues(o, now);
      if !ok {
        return Internal500;
      }
      ok := Commit();
      return if ok then OK200 else Internal500;
    }

    method DeleteValue(v: nat, now: Time) returns (status: Status)
      requires Valid()
      modifies this
      ensures Valid()
      ensures Effect(old(tables), Request.DeleteValue(v), now, tables)
      ensures status == OK200 ==> LiveValue(old(tables), v) && tables == ArchiveValue(old(tables), v, now)
      ensures status == OK200 ==>
        && tables == old(tables).(values := tables.values)
        && |tables.values| == |old(tables).values|
        && (forall i :: 0 <= i < |tables.values| ==>
              tables.values[i] == if i == v then old(tables).values[i].(archivedOn := Some(now))
                                  else old(tables).values[i])
      ensures status == NotFound404 ==> !LiveValue(old(tables), v) && tables == old(tables)
      ensures open == old(open)
      ensures Healthy() && FreshStamp(old(tables), now) ==>
        status == if LiveValue(old(tables), v) then OK200 else NotFound404
    {
      var found := Fetch(LiveValue(tables, v));
      if found != Hit {
        return if found == NoRows then NotFound404 else Internal500;
      }
      if FreshStamp(tables, now) {
        SmallDeletionsKeepUnique(tables, v, now);
      }
      var a := ExecDirect(ArchiveValue(tables, v, now), v < |tables.values|);
      return if a == Hit then OK200 else Internal500;
    }

    // ----- options and values -----

    /** The handler from Begin to Commit. */
    method StoreOption(r: nat, o: OptionInput) returns (status: Status)
      requires Valid()
      modifies this
      ensures Valid()
      ensures tables == old(tables) || tables == AddOption(old(tables), r, o)
      ensures status == Created201 || status == Internal500
      ensures status == Created201 ==> tables == AddOption(old(tables), r, o)
      ensures open == old(open)
      ensures Healthy() ==> (status == Created201 <==> UniqueKeys(AddOption(old(tables), r, o)))
    {
      var ok := Begin();
      if !ok {
        return Internal500;
      }
      var created := CreateProductOptionAndValues(o, r);
      if created.None? {
        Rollback();
        return Internal500;
      }
      ok := Commit();
      return if ok then Created201 else Internal500;
    }

    /** The option creation handler; an existence query that fails reads as "does not exist". */
    method CreateOption(r: nat, o: OptionInput) returns (status: Status)
      requires Valid()
      modifies this
      ensures Valid()
      ensures Effect(old(tables), Request.CreateOption(r, o), 0, tables)
      ensures status == Created201 ==> LiveRoot(old(tables), r) && tables == AddOption(old(tables), r, o)
      ensures status == Created201 ==>
        var m, n := |old(tables).options|, |old(tables).values|;
        && tables == old(tables).(options := tables.options, values := tables.values)
        && |tables.options| == m + 1 && old(tables).options <= tables.options
        && tables.options[m].rootID == r && tables.options[m].name == o.name && tables.options[m].archivedOn.None?
        && |tables.values| == n + |o.values| && old(tables).values <= tables.values
        && (forall d :: 0 <= d < |o.values| ==>
              && tables.values[n + d].optionID == m
              && tables.values[n + d].value == o.values[d]
              && tables.values[n + d].archivedOn.None?)
      ensures status == NotFound404 || status == BadRequest400 ==> tables == old(tables)
      ensures open == old(open)
      ensures Healthy() && References(old(tables)) ==>
        status == (if !LiveRoot(old(tables), r) then NotFound404
                   else if OptionNameTaken(old(tables), r, o.name) then BadRequest400
                   else if OptionNameUsed(old(tables), r, o.name) || !Distinct(o.values) then Internal500
                   else Created201)
    {
      var root := Fetch(LiveRoot(tables, r));
      if root != Hit {
        return NotFound404;
      }
      var taken := Fetch(OptionNameTaken(tables, r, o.name));
      if taken != NoRows {
        return if taken == Hit then BadRequest400 else Internal500;
      }
      if References(tables) {
        AddOptionUniqueIff(tables, r, o);
      }
      status := StoreOption(r, o);
    }

    method CreateValue(o: nat, value: string) returns (status: Status)
      requires Valid()
      modifies this
      ensures Valid()
      ensures Effect(old(tables), Request.CreateValue(o, value), 0, tables)
      ensures status == Created201 ==>
        LiveOption(old(tables), o) && tables == InsertValue(old(tables), ValueRow(o, value, None))
      ensures status == Created201 ==>
        && tables == old(tables).(values := tables.values)
        && |tables.values| == |old(tables).values| + 1
        && old(tables).values <= tables.values
        && var row := tables.values[|old(tables).values|];
           row.optionID == o && row.value == value && row.archivedOn.None?
      ensures status == NotFound404 || status == BadRequest400 ==> tables == old(tables)
      ensures open == old(open)
      ensures Healthy() ==>
        status == (if !LiveOption(old(tables), o) then NotFound404
                   else if ValueTaken(old(tables), o, value) then BadRequest400
                   else if ValueTextUsed(old(tables), o, value) then Internal500 else Created201)
    {
      var option := Fetch(LiveOption(tables, o));
      if option != Hit {
        return NotFound404;
      }
      var taken := Fetch(ValueTaken(tables, o, value));
      if taken != NoRows {
        return if taken == Hit then BadRequest400 else Internal500;
      }
      var ok := Begin();
      if !ok {
        return Internal500;
      }
      InsertValueUniqueIff(tables, o, value);
      var row := Exec(InsertValue(pending.value, ValueRow(o, value, None)), true);
      if row != Hit {
        Rollback();
        return Internal500;
      }
      ok := Commit();
      return if ok then Created201 else Internal500;
    }

    // ----- updates -----

    /** The product update from the merged product on. */
    method StoreUpdate(p: nat, patch: ProductPatch) returns (status: Status)
      requires Valid() && p < |tables.products|
      modifies this
      ensures Valid()
      ensures tables == old(tables)
        || (PatchAccepted(old(tables), p, patch) && tables == ProductPatched(old(tables), p, patch))
      ensures status == OK200 ==>
        PatchAccepted(old(tables), p, patch) && tables == ProductPatched(old(tables), p, patch)
      ensures status == OK200 || status == BadRequest400 || status == Internal500
      ensures status == BadRequest400 ==> tables == old(tables)
      ensures open == old(open)
      ensures Healthy() ==>
        status == (if !RestrictedStringIsValid(Merged(old(tables).products[p], patch).sku) then BadRequest400
                   else if !PatchAccepted(old(tables), p, patch) then Internal500
                   else if ClashesElsewhere(old(tables), PatchTarget(p, patch), PatchedRow(old(tables), p, patch))
                   then Internal500 else OK200)
    {
      if !RestrictedStringIsValid(Merged(tables.products[p], patch).sku) {
        return BadRequest400;
      }
      if !PatchAccepted(tables, p, patch) {
        return Internal500;
      }
      ProductPatchedUniqueIff(tables, p, patch);
      var a := ExecDirect(ProductPatched(tables, p, patch), true);
      if a == Broken {
        return Internal500;
      }
      var webhooks := Fetch(true);
      return if webhooks == Broken then Internal500 else OK200;
    }

    /** The product update handler. */
    method UpdateProduct(sku: string, patch: ProductPatch) returns (status: Status, p: nat)
      requires Valid()
      modifies this
      ensures Valid()
      ensures Effect(old(tables), PatchProduct(sku, patch), 0, tables)
      ensures status == OK200 ==>
        && LiveSku(old(tables), p, sku)
        && PatchAccepted(old(tables), p, patch)
        && tables == ProductPatched(old(tables), p, patch)
      ensures status == OK200 ==>
        var id := if patch.id.Some? then patch.id.value else p;
        && tables == old(tables).(products := tables.products)
        && |tables.products| == |old(tables).products|
        && p < |tables.products| && id < |tables.products|
        && (forall i :: 0 <= i < |tables.products| && i != id ==> tables.products[i] == old(tables).products[i])
        && var existing, row := old(tables).products[p], tables.products[id];
        && row.rootID == (if patch.rootID.Some? then patch.rootID.value else existing.rootID)
        && row.primaryImageID == (if patch.primaryImageID.Some? then patch.primaryImageID
                                  else existing.primaryImageID)
        && row.name == (if patch.name != "" then patch.name else existing.name)
        && row.sku == (if patch.sku != "" then patch.sku else existing.sku)
        && row.upc == (if patch.upc != "" then patch.upc else existing.upc)
        && row.optionSummary == (if patch.optionSummary != "" then patch.optionSummary else existing.optionSummary)
        && row.quantityPerPackage == (if patch.quantityPerPackage != 0 then patch.quantityPerPackage
                                      else existing.quantityPerPackage)
        && row.archivedOn == old(tables).products[id].archivedOn
      ensures status == NotFound404 ==> tables == old(tables) && forall i: nat :: !LiveSku(old(tables), i, sku)
      ensures status == BadRequest400 ==> tables == old(tables)
      ensures open == old(open)
      ensures Healthy() && status != NotFound404 ==>
        && LiveSku(old(tables), p, sku)
        && status == (if !RestrictedStringIsValid(Merged(old(tables).products[p], patch).sku) then BadRequest400
                      else if !PatchAccepted(old(tables), p, patch) then Internal500
                      else if ClashesElsewhere(old(tables), PatchTarget(p, patch), PatchedRow(old(tables), p, patch))
                      then Internal500 else OK200)
    {
      var found;
      found, p := GetProductBySKU(sku);
      if found != Hit {
        return if found == NoRows then NotFound404 else Internal500, p;
      }
      status := StoreUpdate(p, patch);
      if PatchAccepted(old(tables), p, patch) {
        PatchIsEffect(old(tables), sku, p, patch, tables);
        if status == OK200 {
          PatchedColumns(old(tables), p, patch, tables);
        }
      }
    }

    method UpdateOption(o: nat, patch: OptionPatch) returns (status: Status)
      requires Valid()
      modifies this
      ensures Valid()
      ensures Effect(old(tables), PatchOption(o, patch), 0, tables)
      ensures status == OK200 ==>
        && LiveOption(old(tables), o)
        && OptionPatchAccepted(old(tables), o, patch)
        && tables == OptionPatched(old(tables), o, patch)
      ensures status == OK200 ==>
        && tables == old(tables).(options := tables.options)
        && |tables.options| == |old(tables).options| && o < |tables.options|
        && (forall i :: 0 <= i < |tables.options| && i != o ==> tables.options[i] == old(tables).options[i])
        && var existing, row := old(tables).options[o], tables.options[o];
        && row.rootID == (if patch.rootID.Some? then patch.rootID.value else existing.rootID)
        && row.name == (if patch.name != "" then patch.name else existing.name)
        && row.archivedOn == existing.archivedOn
      ensures status == NotFound404 ==> !LiveOption(old(tables), o) && tables == old(tables)
      ensures open == old(open)
      ensures Healthy() ==>
        status == (if !LiveOption(old(tables), o) then NotFound404
                   else if !OptionPatchAccepted(old(tables), o, patch) then Internal500
                   else if NameUsedElsewhere(old(tables), o, Or(patch.rootID, old(tables).options[o].rootID),
                                             OrText(patch.name, old(tables).options[o].name))
                   then Internal500 else OK200)
    {
      var found := Fetch(LiveOption(tables, o));
      if found != Hit {
        return if found == NoRows then NotFound404 else Internal500;
      }
      if !OptionPatchAccepted(tables, o, patch) {
        return Internal500;
      }
      OptionPatchedUniqueIff(tables, o, patch);
      var a := ExecDirect(OptionPatched(tables, o, patch), true);
      if a == Broken {
        return Internal500;
      }
      var values := Fetch(true);
      return if values == Broken then Internal500 else OK200;
    }

    method UpdateValue(v: nat, value: string) returns (status: Status)
      requires Valid()
      modifies this
      ensures Valid()
      ensures Effect(old(tables), PatchValue(v, value), 0, tables)
      ensures status == OK200 ==> LiveValue(old(tables), v) && tables == ValuePatched(old(tables), v, value)
      ensures status == OK200 ==>
        && tables == old(tables).(values := tables.values)
        && |tables.values| == |old(tables).values| && v < |tables.values|
        && (forall i :: 0 <= i < |tables.values| && i != v ==> tables.values[i] == old(tables).values[i])
        && tables.values[v].value == value
        && tables.values[v].optionID == old(tables).values[v].optionID
        && tables.values[v].archivedOn == old(tables).values[v].archivedOn
      ensures status == NotFound404 ==> !LiveValue(old(tables), v) && tables == old(tables)
      ensures open == old(open)
      ensures Healthy() ==>
        status == (if !LiveValue(old(tables), v) then NotFound404
                   else if TextUsedElsewhere(old(tables), v, old(tables).values[v].optionID, value) then Internal500
                   else OK200)
    {
      var found := Fetch(LiveValue(tables, v));
      if found != Hit {
        return if found == NoRows then NotFound404 else Internal500;
      }
      ValuePatchedUniqueIff(tables, v, value);
      var a := ExecDirect(ValuePatched(tables, v, value), true);
      return if a == Hit then OK200 else Internal500;
    }
  }
}
