/** What no later request undoes: archived rows stay archived, used names and texts stay used, and a root
    with two archived values of one text is never deleted. */
module Permanence {
  import opened Wrappers
  import opened Variants
  import opened ProductImages
  import opened Catalogue
  import opened Creation
  import opened Lifecycle
  import opened Constraints

  // ----- archived rows -----

  /** No row is removed, archived rows stay archived, an archived option stays as it is, and an archived
      value keeps its text. Roots keep their prefix, values their option and bridges both their ends. */
  ghost predicate Settled(t: Tables, t': Tables) {
    && |t.roots| <= |t'.roots| && |t.products| <= |t'.products| && |t.options| <= |t'.options|
    && |t.values| <= |t'.values| && |t.bridges| <= |t'.bridges|
    && (forall i :: 0 <= i < |t.roots| ==> t'.roots[i].skuPrefix == t.roots[i].skuPrefix)
    && (forall i :: 0 <= i < |t.roots| && t.roots[i].archivedOn.Some? ==> t'.roots[i].archivedOn.Some?)
    && (forall i :: 0 <= i < |t.products| && t.products[i].archivedOn.Some? ==> t'.products[i].archivedOn.Some?)
    && (forall i :: 0 <= i < |t.options| && t.options[i].archivedOn.Some? ==> t'.options[i] == t.options[i])
    && (forall i :: 0 <= i < |t.values| ==> t'.values[i].optionID == t.values[i].optionID)
    && (forall i :: 0 <= i < |t.values| && t.values[i].archivedOn.Some? ==>
          t'.values[i].archivedOn.Some? && t'.values[i].value == t.values[i].value)
    && (forall i :: 0 <= i < |t.bridges| ==>
          t'.bridges[i].productID == t.bridges[i].productID && t'.bridges[i].valueID == t.bridges[i].valueID)
    && (forall i :: 0 <= i < |t.bridges| && t.bridges[i].archivedOn.Some? ==> t'.bridges[i].archivedOn.Some?)
  }

  lemma SettledTransitive(a: Tables, b: Tables, c: Tables)
    requires Settled(a, b) && Settled(b, c)
    ensures Settled(a, c)
  {
  }

  lemma SameSettles(t: Tables)
    ensures Settled(t, t)
  {
  }

  lemma GrowthSettles(t: Tables, t': Tables)
    requires Grows(t, t') && t.bridges <= t'.bridges
    ensures Settled(t, t')
  {
  }

  lemma RootDeletionSettles(t: Tables, r: nat, now: Time)
    ensures Settled(t, RootDeleted(t, r, now))
  {
  }

  lemma ProductDeletionSettles(t: Tables, p: nat, now: Time)
    ensures Settled(t, ProductDeleted(t, p, now))
  {
  }

  lemma OptionDeletionSettles(t: Tables, o: nat, now: Time)
    requires LiveOption(t, o)
    ensures Settled(t, OptionDeleted(t, o, now))
  {
  }

  lemma UpdateSettles(t: Tables, q: Request, now: Time, t': Tables)
    requires Work(t, q, now, t') && (q.PatchProduct? || q.PatchOption? || q.PatchValue? || q.DeleteValue?)
    ensures Settled(t, t')
  {
  }

  lemma StepSettles(t: Tables, q: Request, now: Time, t': Tables)
    requires Effect(t, q, now, t')
    ensures Settled(t, t')
  {
    if t' == t {
      SameSettles(t);
    } else {
      match q
      case CreateProduct(env, input) =>
        CreationCounts(t, env, input, Kept(input.images));
        GrowthSettles(t, t');
      case CreateOption(r, o) => GrowthSettles(t, t');
      case CreateValue(o, v) => GrowthSettles(t, t');
      case DeleteRoot(r) => RootDeletionSettles(t, r, now);
      case DeleteProduct(sku) =>
        var p: nat :| LiveSku(t, p, sku) && t' == ProductDeleted(t, p, now);
        ProductDeletionSettles(t, p, now);
      case DeleteOption(o) => OptionDeletionSettles(t, o, now);
      case _ => UpdateSettles(t, q, now, t');
    }
  }

  /** Between any two states of a run rows only settle. */
  lemma {:induction false} RunSettles(ts: seq<Tables>, qs: seq<Request>, clock: seq<Time>, m: nat, n: nat)
    requires IsRun(ts, qs, clock) && m <= n < |ts|
    ensures Settled(ts[m], ts[n])
  {
    if m == n {
      SameSettles(ts[m]);
    } else {
      RunSettles(ts, qs, clock, m, n - 1);
      StepSettles(ts[n - 1], qs[n - 1], clock[n - 1], ts[n - 1 + 1]);
      SettledTransitive(ts[m], ts[n - 1], ts[n]);
    }
  }

  // ----- used names and texts -----

  lemma UsedNameRefused(t: Tables, r: nat, o: OptionInput)
    requires OptionNameUsed(t, r, o.name)
    ensures !UniqueKeys(AddOption(t, r, o))
  {
    var i :| 0 <= i < |t.options| && t.options[i].rootID == r && t.options[i].name == o.name;
    var rows := AddOption(t, r, o).options;
    assert OptionsClash(rows[i], rows[|t.options|]);
  }

  lemma UsedTextRefused(t: Tables, o: nat, text: string)
    requires ValueTextUsed(t, o, text)
    ensures !UniqueKeys(InsertValue(t, ValueRow(o, text, None)))
  {
    var i :| 0 <= i < |t.values| && t.values[i].optionID == o && t.values[i].value == text;
    var rows := InsertValue(t, ValueRow(o, text, None)).values;
    assert ValuesClash(rows[i], rows[|t.values|]);
  }

  /** After option i is deleted no request ever creates an option of its name under its root again. */
  lemma NameStaysUsed(ts: seq<Tables>, qs: seq<Request>, clock: seq<Time>, m: nat, n: nat, i: nat,
                      o: OptionInput, now: Time, t': Tables)
    requires IsRun(ts, qs, clock) && m <= n < |ts|
    requires i < |ts[m].options| && ts[m].options[i].archivedOn.Some? && o.name == ts[m].options[i].name
    requires Effect(ts[n], CreateOption(ts[m].options[i].rootID, o), now, t')
    ensures OptionNameUsed(ts[n], ts[m].options[i].rootID, o.name) && t' == ts[n]
  {
    RunSettles(ts, qs, clock, m, n);
    assert ts[n].options[i] == ts[m].options[i];
    UsedNameRefused(ts[n], ts[m].options[i].rootID, o);
  }

  /** After value i is deleted no request ever creates a value of its text for its option again. */
  lemma TextStaysUsed(ts: seq<Tables>, qs: seq<Request>, clock: seq<Time>, m: nat, n: nat, i: nat,
                      now: Time, t': Tables)
    requires IsRun(ts, qs, clock) && m <= n < |ts|
    requires i < |ts[m].values| && ts[m].values[i].archivedOn.Some?
    requires Effect(ts[n], CreateValue(ts[m].values[i].optionID, ts[m].values[i].value), now, t')
    ensures ValueTextUsed(ts[n], ts[m].values[i].optionID, ts[m].values[i].value) && t' == ts[n]
  {
    RunSettles(ts, qs, clock, m, n);
    assert ts[n].values[i].optionID == ts[m].values[i].optionID && ts[n].values[i].value == ts[m].values[i].value;
    UsedTextRefused(ts[n], ts[m].values[i].optionID, ts[m].values[i].value);
  }

  // ----- roots that are never deleted -----

  ghost predicate ArchivedUnder(t: Tables, v: nat, r: nat) {
    && ValueOfRoot(t, v, r)
    && t.values[v].archivedOn.Some?
    && t.options[t.values[v].optionID].archivedOn.Some?
  }

  /** u and v are archived values of one text under archived options of the root. */
  ghost predicate Locks(t: Tables, r: nat, u: nat, v: nat) {
    u < v && ArchivedUnder(t, u, r) && ArchivedUnder(t, v, r) && t.values[u].value == t.values[v].value
  }

  lemma LocksLast(t: Tables, t': Tables, r: nat, u: nat, v: nat)
    requires Settled(t, t') && Locks(t, r, u, v)
    ensures Locks(t', r, u, v)
  {
  }

  /** Two values under the root that read the same refuse its deletion at every stamp, fresh or not. */
  lemma SharedTextRefused(t: Tables, r: nat, now: Time)
    requires SharedValueText(t, r)
    ensures !UniqueKeys(RootDeleted(t, r, now))
  {
    RootDeletedIsMasked(t, r, now);
    var rows := ArchiveValuesOfRoot(t, r, now).values;
    var i: nat, j: nat :| i < j && ValueOfRoot(t, i, r) && ValueOfRoot(t, j, r)
      && t.values[i].value == t.values[j].value;
    assert ValuesClash(rows[i], rows[j]);
  }

  lemma RootsUntouched(t: Tables, q: Request, now: Time, t': Tables)
    requires Work(t, q, now, t') && !q.CreateProduct? && !q.DeleteRoot?
    ensures t'.roots == t.roots
  {
  }

  lemma LiveInPrefix(t: Tables, t': Tables, r: nat)
    requires t.roots <= t'.roots && LiveRoot(t, r)
    ensures LiveRoot(t', r)
  {
  }

  /** Only a request to delete the root ends its life. */
  lemma RootEndsByDeletion(t: Tables, q: Request, now: Time, t': Tables, r: nat)
    requires LiveRoot(t, r) && Effect(t, q, now, t')
    ensures LiveRoot(t', r) || (q == DeleteRoot(r) && t' == RootDeleted(t, r, now) && UniqueKeys(t'))
  {
    if t' != t {
      match q
      case CreateProduct(env, input) =>
        CreationCounts(t, env, input, Kept(input.images));
        LiveInPrefix(t, t', r);
      case DeleteRoot(p) => CascadeIsExact(t, p, now);
      case _ =>
        RootsUntouched(t, q, now, t');
        LiveInPrefix(t, t', r);
    }
  }

  /** Once two values lock a live root it is live in every later state, whatever is requested. */
  lemma {:induction false} LockedRootStays(ts: seq<Tables>, qs: seq<Request>, clock: seq<Time>, m: nat, n: nat,
                                          r: nat, u: nat, v: nat)
    requires IsRun(ts, qs, clock) && m <= n < |ts|
    requires LiveRoot(ts[m], r) && Locks(ts[m], r, u, v)
    ensures LiveRoot(ts[n], r) && Locks(ts[n], r, u, v)
  {
    if m < n {
      LockedRootStays(ts, qs, clock, m, n - 1, r, u, v);
      LockedStep(ts[n - 1], qs[n - 1], clock[n - 1], ts[n - 1 + 1], r, u, v);
    }
  }

  lemma LockedStep(t: Tables, q: Request, now: Time, t': Tables, r: nat, u: nat, v: nat)
    requires Effect(t, q, now, t') && LiveRoot(t, r) && Locks(t, r, u, v)
    ensures LiveRoot(t', r) && Locks(t', r, u, v)
  {
    StepSettles(t, q, now, t');
    LocksLast(t, t', r, u, v);
    RootEndsByDeletion(t, q, now, t', r);
    ReadTheSame(t, u, v, r);
    SharedTextRefused(t, r, now);
  }

  /** The deletion of a live option that has value v. */
  lemma OptionDeletionEffect(t: Tables, o: nat, v: nat, now: Time)
    requires UniqueKeys(t) && FreshStamp(t, now) && LiveOption(t, o)
    requires v < |t.values| && t.values[v].optionID == o
    ensures Effect(t, DeleteOption(o), now, OptionDeleted(t, o, now)) && UniqueKeys(OptionDeleted(t, o, now))
  {
    SmallDeletionsKeepUnique(t, o, now);
    assert HasValues(t, o);
  }

  lemma DeletedOptionArchivesValue(t: Tables, o: nat, v: nat, now: Time)
    requires o < |t.options| && v < |t.values| && t.values[v].optionID == o
    ensures ArchivedUnder(OptionDeleted(t, o, now), v, t.options[o].rootID)
    ensures OptionDeleted(t, o, now).values[v].value == t.values[v].value
  {
  }

  lemma DeletionLeavesOthers(t: Tables, o: nat, p: nat, v: nat, now: Time)
    requires o != p && p < |t.options| && v < |t.values| && t.values[v].optionID == p
    ensures var t' := OptionDeleted(t, o, now);
      t'.roots == t.roots && t'.options[p] == t.options[p] && t'.values[v] == t.values[v]
  {
  }

  lemma ArchivedUnderLasts(t: Tables, t': Tables, v: nat, r: nat)
    requires Settled(t, t') && ArchivedUnder(t, v, r)
    ensures ArchivedUnder(t', v, r) && t'.values[v].value == t.values[v].value
  {
  }

  /** u and v are values of one text of two live options of the root. */
  ghost predicate SharedByOptions(t: Tables, r: nat, o: nat, p: nat, u: nat, v: nat) {
    && LiveOption(t, o) && LiveOption(t, p) && o != p && t.options[o].rootID == r == t.options[p].rootID
    && u < v < |t.values| && t.values[u].optionID == o && t.values[v].optionID == p
    && t.values[u].value == t.values[v].value
  }

  /** Deleting such options one after the other locks the root. */
  lemma DeletingBothLocks(t: Tables, r: nat, o: nat, p: nat, u: nat, v: nat, now: Time, later: Time)
    requires UniqueKeys(t) && StampsBefore(t, now) && now < later && SharedByOptions(t, r, o, p, u, v)
    ensures var t1 := OptionDeleted(t, o, now);
      var t2 := OptionDeleted(t1, p, later);
      && Effect(t, DeleteOption(o), now, t1)
      && Effect(t1, DeleteOption(p), later, t2)
      && Locks(t2, r, u, v) && t2.roots == t.roots
  {
    StampsBeforeAreFresh(t, now);
    OptionDeletionEffect(t, o, u, now);
    DeletedOptionArchivesValue(t, o, u, now);
    DeletionLeavesOthers(t, o, p, v, now);
    LaterStamps(t, now, later);
    SmallDeletionStamps(t, o, now, later);
    SecondDeletionLocks(OptionDeleted(t, o, now), r, p, u, v, later);
  }

  lemma SecondDeletionLocks(t: Tables, r: nat, p: nat, u: nat, v: nat, now: Time)
    requires UniqueKeys(t) && StampsBefore(t, now) && LiveOption(t, p) && t.options[p].rootID == r
    requires u < v < |t.values| && ArchivedUnder(t, u, r) && t.values[v].optionID == p
    requires t.values[u].value == t.values[v].value
    ensures Effect(t, DeleteOption(p), now, OptionDeleted(t, p, now))
    ensures Locks(OptionDeleted(t, p, now), r, u, v) && OptionDeleted(t, p, now).roots == t.roots
  {
    StampsBeforeAreFresh(t, now);
    OptionDeletionEffect(t, p, v, now);
    DeletedOptionArchivesValue(t, p, v, now);
    OptionDeletionSettles(t, p, now);
    ArchivedUnderLasts(t, OptionDeleted(t, p, now), u, r);
  }

  // ----- such a root -----

  function Front(): CreationInput {
    CreationInput(Template("shirt", "shirt", "", 1), [], [OptionInput("front", ["red"])])
  }

  function Back(): OptionInput {
    OptionInput("back", ["red"])
  }

  lemma FrontIsFine()
    ensures RestrictedStringIsValid(Front().template.sku) && Front().template.upc == "" && Front().images == []
    ensures Front().options == [OptionInput("front", ["red"])] && OptionsWellKeyed(Front().options)
  {
  }

  ghost function WithFront(env: Environment): Tables {
    AfterCreation(Empty(), env, Front(), Kept([]))
  }

  /** The rows of a creation with a single option. */
  lemma OneOptionRows(t: Tables, env: Environment, input: CreationInput, kept: seq<ImageInput>, o: OptionInput)
    requires input.options == [o]
    ensures AfterCreation(t, env, input, kept).options == t.options + [OptionRow(|t.roots|, o.name, None)]
    ensures AfterCreation(t, env, input, kept).values == t.values + ValueRows(|t.options|, o.values)
  {
    SingleOption(WithRootAndImages(t, env, input, kept), |t.roots|, o);
    VariantsAppend(WithOptions(t, env, input, kept), |t.roots|, NewVariants(t, env, input, kept));
  }

  lemma SingleOption(t: Tables, r: nat, o: OptionInput)
    ensures AddOptions(t, r, [o]) == AddOption(t, r, o)
  {
    assert [o][..0] == [];
  }

  lemma FrontRows(env: Environment)
    ensures WithFront(env).options == [OptionRow(0, "front", None)]
    ensures WithFront(env).values == [ValueRow(0, "red", None)]
  {
    OneOptionRows(Empty(), env, Front(), Kept([]), OptionInput("front", ["red"]));
  }

  lemma FrontCreated(env: Environment)
    ensures Effect(Empty(), Request.CreateProduct(env, Front()), 0, WithFront(env))
    ensures UniqueKeys(WithFront(env))
  {
    FrontIsFine();
    EmptyIsFine();
    CreationEffect(Empty(), env, Front(), 0);
  }

  lemma FrontConsistent(env: Environment)
    ensures Consistent(WithFront(env)) && LiveRoot(WithFront(env), 0) && StampsBefore(WithFront(env), 1)
  {
    EmptyIsFine();
    CreationKeeps(Empty(), env, Front(), Kept([]));
    NewRootIsLive(Empty(), env, Front(), Kept([]));
    CreationStamps(Empty(), env, Front(), Kept([]), 1);
  }

  /** One more option with the same value. */
  lemma BackAdded(t: Tables)
    requires Consistent(t) && UniqueKeys(t) && LiveRoot(t, 0) && StampsBefore(t, 1)
    requires t.options == [OptionRow(0, "front", None)] && t.values == [ValueRow(0, "red", None)]
    ensures var t' := AddOption(t, 0, Back());
      && Effect(t, CreateOption(0, Back()), 0, t')
      && Consistent(t') && UniqueKeys(t') && LiveRoot(t', 0) && StampsBefore(t', 1)
      && SharedByOptions(t', 0, 0, 1, 0, 1)
  {
    AddOptionUniqueIff(t, 0, Back());
    AddOptionKeeps(t, 0, Back());
    OptionStamps(t, 0, Back(), 1);
  }

  lemma FrontAndBack(env: Environment)
    ensures var t := AddOption(WithFront(env), 0, Back());
      && Effect(Empty(), Request.CreateProduct(env, Front()), 0, WithFront(env))
      && Effect(WithFront(env), CreateOption(0, Back()), 0, t)
      && Consistent(t) && UniqueKeys(t) && LiveRoot(t, 0) && StampsBefore(t, 1)
      && SharedByOptions(t, 0, 0, 1, 0, 1)
  {
    FrontRows(env);
    FrontCreated(env);
    FrontConsistent(env);
    BackAdded(WithFront(env));
  }

  lemma SharedOptionsRefuse(t: Tables, r: nat, o: nat, p: nat, u: nat, v: nat, now: Time, t': Tables)
    requires SharedByOptions(t, r, o, p, u, v) && Effect(t, DeleteRoot(r), now, t')
    ensures t' == t
  {
    ReadTheSame(t, u, v, r);
    SharedTextRefused(t, r, now);
  }

  /** Two requests from empty tables after which no request to delete the root takes effect: its two
      options share a value text. */
  lemma SharedTextBlocksDeletion(env: Environment, now: Time, t': Tables)
    requires Effect(AddOption(WithFront(env), 0, Back()), DeleteRoot(0), now, t')
    ensures var t := AddOption(WithFront(env), 0, Back());
      && Effect(Empty(), Request.CreateProduct(env, Front()), 0, WithFront(env))
      && Effect(WithFront(env), CreateOption(0, Back()), 0, t)
      && Consistent(t) && UniqueKeys(t) && LiveRoot(t, 0)
      && t' == t
  {
    FrontAndBack(env);
    SharedOptionsRefuse(AddOption(WithFront(env), 0, Back()), 0, 0, 1, 0, 1, now, t');
  }

  lemma RunOfFour(t0: Tables, q0: Request, t1: Tables, q1: Request, t2: Tables, q2: Request, t3: Tables,
                  q3: Request, t4: Tables, clock: seq<Time>)
    requires |clock| == 4
    requires Effect(t0, q0, clock[0], t1) && Effect(t1, q1, clock[1], t2)
    requires Effect(t2, q2, clock[2], t3) && Effect(t3, q3, clock[3], t4)
    ensures IsRun([t0, t1, t2, t3, t4], [q0, q1, q2, q3], clock)
  {
  }

  /** The end of a run that locks a root. */
  lemma LockingEnd(t0: Tables, q0: Request, t1: Tables, q1: Request, t2: Tables)
    returns (ts: seq<Tables>, qs: seq<Request>, clock: seq<Time>)
    requires Effect(t0, q0, 0, t1) && Effect(t1, q1, 0, t2)
    requires UniqueKeys(t2) && LiveRoot(t2, 0) && StampsBefore(t2, 1) && SharedByOptions(t2, 0, 0, 1, 0, 1)
    ensures IsRun(ts, qs, clock) && |ts| == 5 && ts[0] == t0
    ensures qs == [q0, q1, DeleteOption(0), DeleteOption(1)]
    ensures LiveRoot(ts[4], 0) && Locks(ts[4], 0, 0, 1)
  {
    var t3 := OptionDeleted(t2, 0, 1);
    var t4 := OptionDeleted(t3, 1, 2);
    DeletingBothLocks(t2, 0, 0, 1, 0, 1, 1, 2);
    ts, qs, clock := [t0, t1, t2, t3, t4], [q0, q1, DeleteOption(0), DeleteOption(1)], [0, 0, 1, 2];
    RunOfFour(t0, q0, t1, q1, t2, DeleteOption(0), t3, DeleteOption(1), t4, clock);
  }

  /** And two more that lock the root for good: both options are deleted. */
  lemma LockedRun(env: Environment) returns (ts: seq<Tables>, qs: seq<Request>, clock: seq<Time>)
    ensures IsRun(ts, qs, clock) && |ts| == 5 && ts[0] == Empty()
    ensures qs == [Request.CreateProduct(env, Front()), CreateOption(0, Back()), DeleteOption(0), DeleteOption(1)]
    ensures LiveRoot(ts[4], 0) && Locks(ts[4], 0, 0, 1)
  {
    FrontAndBack(env);
    ts, qs, clock := LockingEnd(Empty(), Request.CreateProduct(env, Front()), WithFront(env), CreateOption(0, Back()),
                                AddOption(WithFront(env), 0, Back()));
  }

  // ----- roots that can be freed -----

  /** u and v are the only values of the root that read the same. */
  ghost predicate OnlyShared(t: Tables, r: nat, u: nat, v: nat) {
    forall i: nat, j: nat ::
      (i < j && ValueOfRoot(t, i, r) && ValueOfRoot(t, j, r) && t.values[i].value == t.values[j].value)
      ==> i == u && j == v
  }

  ghost predicate TextUnderRoot(t: Tables, r: nat, text: string) {
    exists i: nat :: ValueOfRoot(t, i, r) && t.values[i].value == text
  }

  lemma RenamingSeparates(t: Tables, r: nat, u: nat, v: nat, text: string)
    requires v < |t.values| && OnlyShared(t, r, u, v) && !TextUnderRoot(t, r, text)
    ensures !SharedValueText(ValuePatched(t, v, text), r)
  {
    var t' := ValuePatched(t, v, text);
    assert forall i: nat :: ValueOfRoot(t', i, r) == ValueOfRoot(t, i, r);
  }

  /** While one of the two is live the root is not lost: an update of its text to a new one frees the root. */
  lemma RenamingFreesRoot(t: Tables, r: nat, u: nat, v: nat, text: string, now: Time)
    requires UniqueKeys(t) && FreshStamp(t, now) && LiveRoot(t, r) && !SharedSku(t, r)
    requires OnlyShared(t, r, u, v) && LiveValue(t, v) && ValueOfRoot(t, v, r) && !TextUnderRoot(t, r, text)
    ensures var t1 := ValuePatched(t, v, text);
      && Effect(t, PatchValue(v, text), now, t1)
      && Effect(t1, DeleteRoot(r), now, RootDeleted(t1, r, now))
      && !LiveRoot(RootDeleted(t1, r, now), r)
  {
    var t1 := ValuePatched(t, v, text);
    ValuePatchedUniqueIff(t, v, text);
    assert !TextUsedElsewhere(t, v, t.values[v].optionID, text);
    RenamingSeparates(t, r, u, v, text);
    assert !SharedSku(t1, r);
    RootDeletionUniqueIff(t1, r, now);
    CascadeIsExact(t1, r, now);
  }

  // ----- options without values -----

  lemma NoValuesKept(t: Tables, t': Tables, o: nat)
    requires |t.values| == |t'.values| && !HasValues(t, o)
    requires forall i :: 0 <= i < |t.values| ==> t'.values[i].optionID == t.values[i].optionID
    ensures !HasValues(t', o)
  {
  }

  lemma EmptyThroughOption(t: Tables, r: nat, p: OptionInput, o: nat)
    requires LiveOption(t, o) && !HasValues(t, o)
    ensures LiveOption(AddOption(t, r, p), o) && !HasValues(AddOption(t, r, p), o)
  {
  }

  lemma EmptyThroughValue(t: Tables, p: nat, text: string, o: nat)
    requires LiveOption(t, o) && !HasValues(t, o)
    ensures var t' := InsertValue(t, ValueRow(p, text, None));
      LiveOption(t', o) && (HasValues(t', o) <==> p == o)
  {
    var t' := InsertValue(t, ValueRow(p, text, None));
    assert t'.values[|t.values|].optionID == p;
  }

  lemma EmptyThroughUpdate(t: Tables, q: Request, now: Time, t': Tables, o: nat)
    requires LiveOption(t, o) && !HasValues(t, o) && Work(t, q, now, t')
    requires q.PatchProduct? || q.PatchOption? || q.PatchValue? || q.DeleteValue?
    ensures LiveOption(t', o) && !HasValues(t', o)
  {
    NoValuesKept(t, t', o);
  }

  lemma EmptyThroughOptions(t: Tables, r: nat, os: seq<OptionInput>, vs: seq<Variant>, o: nat)
    requires LiveOption(t, o) && !HasValues(t, o)
    ensures var t' := AddVariants(AddOptions(t, r, os), r, vs);
      LiveOption(t', o) && !HasValues(t', o)
  {
    OptionsAppend(t, r, os);
    VariantsAppend(AddOptions(t, r, os), r, vs);
  }

  lemma EmptyThroughCreation(t: Tables, env: Environment, input: CreationInput, kept: seq<ImageInput>, o: nat)
    requires LiveOption(t, o) && !HasValues(t, o)
    ensures LiveOption(AfterCreation(t, env, input, kept), o) && !HasValues(AfterCreation(t, env, input, kept), o)
  {
    if input.options != [] {
      EmptyThroughOptions(WithRootAndImages(t, env, input, kept), |t.roots|, input.options,
                          NewVariants(t, env, input, kept), o);
    }
  }

  lemma EmptyThroughRootDeletion(t: Tables, r: nat, now: Time, o: nat)
    requires LiveOption(t, o) && !HasValues(t, o)
    ensures var t' := RootDeleted(t, r, now);
      (LiveOption(t', o) <==> t.options[o].rootID != r) && !HasValues(t', o)
  {
    CascadeIsExact(t, r, now);
    NoValuesKept(t, RootDeleted(t, r, now), o);
  }

  lemma EmptyThroughDeletion(t: Tables, q: Request, now: Time, t': Tables, o: nat)
    requires LiveOption(t, o) && !HasValues(t, o) && Work(t, q, now, t')
    requires q.DeleteProduct? || q.DeleteOption?
    ensures LiveOption(t', o) && !HasValues(t', o)
  {
    NoValuesKept(t, t', o);
  }

  /** A live option without values stays live through every effect but the deletion of its root, and
      without values through every effect but the creation of a value for it. */
  lemma EmptyOptionStep(t: Tables, q: Request, now: Time, t': Tables, o: nat)
    requires LiveOption(t, o) && !HasValues(t, o) && Effect(t, q, now, t') && t' != t
    ensures LiveOption(t', o) <==> q != DeleteRoot(t.options[o].rootID)
    ensures HasValues(t', o) <==> q.CreateValue? && q.ofOption == o
  {
    match q
    case CreateProduct(env, input) => EmptyThroughCreation(t, env, input, Kept(input.images), o);
    case DeleteRoot(r) => EmptyThroughRootDeletion(t, r, now, o);
    case DeleteProduct(_) => EmptyThroughDeletion(t, q, now, t', o);
    case DeleteOption(_) => EmptyThroughDeletion(t, q, now, t', o);
    case CreateValue(p, v) => EmptyThroughValue(t, p, v, o);
    case CreateOption(r, p) => EmptyThroughOption(t, r, p, o);
    case _ => EmptyThroughUpdate(t, q, now, t', o);
  }

  /** q neither creates a value for the option nor deletes the root it belongs to. */
  ghost predicate Spares(t: Tables, q: Request, o: nat) {
    && !(q.CreateValue? && q.ofOption == o)
    && (o < |t.options| ==> q != DeleteRoot(t.options[o].rootID))
  }

  /** Until then an option without values stays live and without values: no deletion of it takes effect. */
  lemma {:induction false} EmptyOptionStays(ts: seq<Tables>, qs: seq<Request>, clock: seq<Time>, m: nat, n: nat, o: nat)
    requires IsRun(ts, qs, clock) && m <= n < |ts|
    requires LiveOption(ts[m], o) && !HasValues(ts[m], o)
    requires forall i :: m <= i < n ==> Spares(ts[i], qs[i], o)
    ensures LiveOption(ts[n], o) && !HasValues(ts[n], o)
  {
    if m < n {
      EmptyOptionStays(ts, qs, clock, m, n - 1, o);
      SparedOptionStays(ts[n - 1], qs[n - 1], clock[n - 1], ts[n - 1 + 1], o);
    }
  }

  lemma SparedOptionStays(t: Tables, q: Request, now: Time, t': Tables, o: nat)
    requires LiveOption(t, o) && !HasValues(t, o) && Effect(t, q, now, t') && Spares(t, q, o)
    ensures LiveOption(t', o) && !HasValues(t', o)
  {
    if t' != t {
      EmptyOptionStep(t, q, now, t', o);
    }
  }

  /** The option x: [] is such an option when it is created. */
  lemma EmptyOptionCreated(t: Tables, r: nat)
    requires References(t)
    ensures var t' := AddOption(t, r, OptionInput("x", []));
      LiveOption(t', |t.options|) && !HasValues(t', |t.options|)
  {
    assert AddOption(t, r, OptionInput("x", [])).values == t.values;
  }

  /** With a value of its own it can be deleted. */
  lemma ValueEndsEmptyOption(t: Tables, o: nat, text: string, now: Time)
    requires UniqueKeys(t) && FreshStamp(t, now) && LiveOption(t, o) && !HasValues(t, o)
    ensures var t1 := InsertValue(t, ValueRow(o, text, None));
      && Effect(t, CreateValue(o, text), now, t1)
      && Effect(t1, DeleteOption(o), now, OptionDeleted(t1, o, now))
      && !LiveOption(OptionDeleted(t1, o, now), o)
  {
    var t1 := InsertValue(t, ValueRow(o, text, None));
    InsertValueUniqueIff(t, o, text);
    EmptyThroughValue(t, o, text, o);
    SmallDeletionsKeepUnique(t1, o, now);
  }
}
