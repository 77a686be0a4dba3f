/** The relational store and the entity loaders (scripts/5_update_database.py,
    lines 86-231; the keys are those of scripts/0_setup_database.py).

    Each table is a map or a set keyed by its primary key, so an upsert is a
    map update and a key never has two rows. A loader runs over the rows of
    one document; every row issues a short list of store statements, and a
    row that raises part-way keeps the statements it had already run (there
    is one commit per document and no rollback per row), and the loader goes
    on with the next row. */
module Store {
  import opened Common
  import opened Resolver
  import opened Derivation

  /** A row of StatusEffects (key, name, icon_path). */
  datatype EffectRecord = EffectRecord(name: string, iconPath: string)

  /** A row of Items; the three damage figures are SQL REALs, carried as
      opaque numbers. `tier` is None for SQL NULL. */
  datatype ItemRecord = ItemRecord(
    name: string, iconPath: string, tier: Option<int>, slot: string,
    durability: real, flatDamageReduction: real, percentageDamageReduction: real)

  /** A row of ArmorSets (key, name, tier, class). */
  datatype SetRecord = SetRecord(name: string, tier: int, armorClass: string)

  /** The six tables the loaders write. `itemEffects` maps (item_key,
      effect_key) to is_hidden; the two set tables hold (set_key, item_key)
      and (set_key, effect_key) pairs. No foreign key is enforced. */
  datatype Tables = Tables(
    items: map<string, ItemRecord>,
    statusEffects: map<string, EffectRecord>,
    armorSets: map<string, SetRecord>,
    itemEffects: map<(string, string), bool>,
    setItems: set<(string, string)>,
    setEffects: set<(string, string)>)

  const EmptyTables := Tables(map[], map[], map[], map[], {}, {})

  /** The SQL statements the loaders issue. */
  datatype Stmt =
    | UpsertEffect(key: string, effect: EffectRecord)
    | UpsertItem(key: string, item: ItemRecord)
    | UpsertSet(key: string, armorSet: SetRecord)
    | DeleteItemEffects(key: string)
    | PutItemEffect(key: string, effectKey: string, hidden: bool)
    | DeleteSetItems(key: string)
    | PutSetItem(key: string, itemKey: string)
    | DeleteSetEffects(key: string)
    | PutSetEffect(key: string, effectKey: string)

  /** The Item_StatusEffects rows of every item but `k`. */
  function OtherItems(m: map<(string, string), bool>, k: string): map<(string, string), bool> {
    map p | p in m && p.0 != k :: m[p]
  }

  /** The association rows of every set but `k`. */
  function OtherSets(s: set<(string, string)>, k: string): set<(string, string)> {
    set p | p in s && p.0 != k
  }

  /** What one statement does to the tables: INSERT OR REPLACE is a map
      update (or a set insertion), DELETE ... WHERE key = ? drops that key's
      association rows. */
  function Apply(t: Tables, s: Stmt): Tables {
    match s
    case UpsertEffect(k, r) => t.(statusEffects := t.statusEffects[k := r])
    case UpsertItem(k, r) => t.(items := t.items[k := r])
    case UpsertSet(k, r) => t.(armorSets := t.armorSets[k := r])
    case DeleteItemEffects(k) => t.(itemEffects := OtherItems(t.itemEffects, k))
    case PutItemEffect(k, e, h) => t.(itemEffects := t.itemEffects[(k, e) := h])
    case DeleteSetItems(k) => t.(setItems := OtherSets(t.setItems, k))
    case PutSetItem(k, i) => t.(setItems := t.setItems + {(k, i)})
    case DeleteSetEffects(k) => t.(setEffects := OtherSets(t.setEffects, k))
    case PutSetEffect(k, e) => t.(setEffects := t.setEffects + {(k, e)})
  }

  /** The statements run one after the other. */
  function Run(t: Tables, ss: seq<Stmt>): Tables
    decreases |ss|
  {
    if ss == [] then t else Run(Apply(t, ss[0]), ss[1..])
  }

  lemma {:induction false} RunAppend(t: Tables, a: seq<Stmt>, b: seq<Stmt>)
    decreases |a|
    ensures Run(t, a + b) == Run(Run(t, a), b)
  {
    if a != [] {
      assert (a + b)[0] == a[0];
      assert (a + b)[1..] == a[1..] + b;
      RunAppend(Apply(t, a[0]), a[1..], b);
    } else {
      assert a + b == b;
    }
  }

  /** The statements a row gets to run: all of them when it does not raise
      (`fault` None), the first `k` when it raises after `k` of them. */
  function Completed(ss: seq<Stmt>, fault: Option<nat>): (done: seq<Stmt>)
    ensures |done| <= |ss| && done == ss[..|done|]
    ensures fault.None? ==> done == ss
  {
    match fault
    case None => ss
    case Some(k) => if k < |ss| then ss[..k] else ss
  }

  // ---------------------------------------------------------------------
  // Source rows. Absent members of a row's JSON object are None (or the
  // empty list); a RowName that is absent, null or empty is "". `fault`
  // says whether and where handling the row raises.
  // ---------------------------------------------------------------------

  /** A row of Table_StatusEffects: DisplayData.Name and
      DisplayData.Icon.ObjectPath. */
  datatype EffectRow = EffectRow(key: string, name: Option<TextRef>, icon: Option<string>, fault: Option<nat>)

  /** The three shapes of an item's "Tier" member. */
  datatype TierField = NoTier | NullTier | Tier(value: int)

  /** An item's "EquippableData" object. */
  datatype Equippable = Equippable(
    durability: Option<real>, flatDamageReduction: Option<real>,
    percentageDamageReduction: Option<real>,
    statusEffects: seq<string>, hiddenStatusEffects: seq<string>)

  /** A row of Table_AllItems. `equippable` is None when EquippableData is
      absent or null. */
  datatype ItemRow = ItemRow(
    key: string, displayName: Option<TextRef>, icon: Option<string>,
    tier: TierField, slot: Option<string>, equippable: Option<Equippable>,
    fault: Option<nat>)

  /** A row of Table_ItemSets: the RowNames of its Items and StatusEffects. */
  datatype SetRow = SetRow(key: string, items: seq<string>, statusEffects: seq<string>, fault: Option<nat>)

  /** The RowNames that count (`if row.get("RowName")`), in order. */
  function NonEmpty(names: seq<string>): (r: seq<string>)
    ensures forall x :: x in r <==> x in names && x != ""
  {
    if names == [] then []
    else (if names[0] != "" then [names[0]] else []) + NonEmpty(names[1..])
  }

  // ---------------------------------------------------------------------
  // Status effects (lines 86-111)
  // ---------------------------------------------------------------------

  function EffectRecordOf(row: EffectRow, loc: Localization): EffectRecord {
    EffectRecord(LocalizedText(loc, row.name.GetOr(map[])), WebAssetPath(row.icon.GetOr(""), true))
  }

  function EffectStep(t: Tables, row: EffectRow, loc: Localization): Tables {
    Run(t, Completed([UpsertEffect(row.key, EffectRecordOf(row, loc))], row.fault))
  }

  function LoadEffects(t: Tables, rows: seq<EffectRow>, loc: Localization): Tables
    decreases |rows|
  {
    if rows == [] then t else LoadEffects(EffectStep(t, rows[0], loc), rows[1..], loc)
  }

  // ---------------------------------------------------------------------
  // Items (lines 114-165)
  // ---------------------------------------------------------------------

  const SlotPrefix := "EEquipmentSlot::"

  /** The item row's EquippableData, with the empty one standing for none. */
  function EquipmentOf(row: ItemRow): Equippable {
    row.equippable.GetOr(Equippable(None, None, None, [], []))
  }

  /** The Items row of lines 127-141, with its defaults: tier -1, slot "None"
      with the "EEquipmentSlot::" prefix removed, damage figures 0.0. */
  function ItemRecordOf(row: ItemRow, loc: Localization): ItemRecord {
    var eq := EquipmentOf(row);
    ItemRecord(
      LocalizedText(loc, row.displayName.GetOr(map[])),
      WebAssetPath(row.icon.GetOr(""), true),
      match row.tier { case NoTier => Some(-1) case NullTier => None case Tier(n) => Some(n) },
      RemoveAll(row.slot.GetOr("None"), SlotPrefix),
      eq.durability.GetOr(0.0),
      eq.flatDamageReduction.GetOr(0.0),
      eq.percentageDamageReduction.GetOr(0.0))
  }

  /** One PutItemEffect per non-empty RowName, in order. */
  function PutItemEffects(key: string, names: seq<string>, hidden: bool): (ss: seq<Stmt>)
    ensures forall s :: s in ss ==> s.PutItemEffect? && s.key == key && s.hidden == hidden
  {
    if names == [] then []
    else (if names[0] != "" then [PutItemEffect(key, names[0], hidden)] else []) + PutItemEffects(key, names[1..], hidden)
  }

  /** The statements of one item row: the upsert, the delete of the item's
      effect rows, then the visible effects (is_hidden 0) and the hidden ones
      (is_hidden 1). */
  function ItemStatements(row: ItemRow, record: ItemRecord): seq<Stmt> {
    var eq := EquipmentOf(row);
    [UpsertItem(row.key, record), DeleteItemEffects(row.key)]
      + PutItemEffects(row.key, eq.statusEffects, false)
      + PutItemEffects(row.key, eq.hiddenStatusEffects, true)
  }

  function ItemStep(t: Tables, row: ItemRow, loc: Localization): Tables {
    Run(t, Completed(ItemStatements(row, ItemRecordOf(row, loc)), row.fault))
  }

  function LoadItems(t: Tables, rows: seq<ItemRow>, loc: Localization): Tables
    decreases |rows|
  {
    if rows == [] then t else LoadItems(ItemStep(t, rows[0], loc), rows[1..], loc)
  }

  // ---------------------------------------------------------------------
  // Item sets (lines 168-231)
  // ---------------------------------------------------------------------

  /** The orders in which the store hands back what the source leaves
      unordered: the rows of the SELECT ... IN queries (member items, and
      their effect rows) and the elements of the set of tiers. */
  datatype Orders = Orders(
    members: set<string> -> seq<string>,
    memberEffects: set<(string, string)> -> seq<(string, string)>,
    tiers: set<int> -> seq<int>)

  /** Every order lists each element of what it is given exactly once. */
  ghost predicate ValidOrders(o: Orders) {
    && (forall s :: Enumerates(o.members(s), s))
    && (forall s :: Enumerates(o.memberEffects(s), s))
    && (forall s :: Enumerates(o.tiers(s), s))
  }

  /** The Items rows of the listed keys, in the listed order. */
  function MemberRecords(items: map<string, ItemRecord>, listed: seq<string>): (rs: seq<ItemRecord>)
    ensures forall r :: r in rs ==> exists k :: k in listed && k in items && items[k] == r
    ensures forall k :: k in listed && k in items ==> items[k] in rs
  {
    if listed == [] then []
    else (if listed[0] in items then [items[listed[0]]] else []) + MemberRecords(items, listed[1..])
  }

  /** Line 188: the non-empty names, in order. */
  function NamesOf(rs: seq<ItemRecord>): (names: seq<string>)
    ensures forall n :: n in names <==> n != "" && exists r :: r in rs && r.name == n
  {
    if rs == [] then [] else (if rs[0].name != "" then [rs[0].name] else []) + NamesOf(rs[1..])
  }

  function TiersOf(rs: seq<ItemRecord>): (ts: seq<Option<int>>)
    ensures |ts| == |rs| && forall i :: 0 <= i < |rs| ==> ts[i] == rs[i].tier
  {
    if rs == [] then [] else [rs[0].tier] + TiersOf(rs[1..])
  }

  function EffectKeysOf(pairs: seq<(string, string)>): (es: seq<string>)
    ensures |es| == |pairs| && forall i :: 0 <= i < |pairs| ==> es[i] == pairs[i].1
  {
    if pairs == [] then [] else [pairs[0].1] + EffectKeysOf(pairs[1..])
  }

  /** Lines 181-185: the member items the store holds, in query order; no
      query when the set lists no item. */
  function MemberRows(t: Tables, keys: seq<string>, o: Orders): seq<ItemRecord> {
    if keys == [] then [] else MemberRecords(t.items, o.members(set k | k in keys && k in t.items))
  }

  /** Lines 201-207: the effect keys of the member items' effect rows,
      visible and hidden, in query order. */
  function MemberEffects(t: Tables, keys: seq<string>, o: Orders): seq<string> {
    if keys == [] then []
    else EffectKeysOf(o.memberEffects(set p | p in t.itemEffects && p.0 in keys))
  }

  /** The ArmorSets row of lines 187-217. */
  function SetRecordOf(t: Tables, row: SetRow, o: Orders): SetRecord {
    var keys := NonEmpty(row.items);
    var members := MemberRows(t, keys, o);
    SetRecord(
      SetName(NamesOf(members)),
      SetTier(o.tiers(TruthyTiers(TiersOf(members)))),
      ClassOf(MemberEffects(t, keys, o)))
  }

  function PutSetItems(key: string, items: seq<string>): (ss: seq<Stmt>)
    ensures |ss| == |items| && forall i :: 0 <= i < |items| ==> ss[i] == PutSetItem(key, items[i])
  {
    if items == [] then [] else [PutSetItem(key, items[0])] + PutSetItems(key, items[1..])
  }

  function PutSetEffects(key: string, effects: seq<string>): (ss: seq<Stmt>)
    ensures |ss| == |effects| && forall i :: 0 <= i < |effects| ==> ss[i] == PutSetEffect(key, effects[i])
  {
    if effects == [] then [] else [PutSetEffect(key, effects[0])] + PutSetEffects(key, effects[1..])
  }

  /** The statements of one set row (lines 214-225). */
  function SetStatements(key: string, r: SetRecord, items: seq<string>, effects: seq<string>): seq<Stmt> {
    [UpsertSet(key, r), DeleteSetItems(key)] + PutSetItems(key, items)
      + [DeleteSetEffects(key)] + PutSetEffects(key, effects)
  }

  function SetStep(t: Tables, row: SetRow, o: Orders): Tables {
    Run(t, Completed(SetStatements(row.key, SetRecordOf(t, row, o), NonEmpty(row.items), NonEmpty(row.statusEffects)), row.fault))
  }

  function LoadSets(t: Tables, rows: seq<SetRow>, o: Orders): Tables
    decreases |rows|
  {
    if rows == [] then t else LoadSets(SetStep(t, rows[0], o), rows[1..], o)
  }

  // ---------------------------------------------------------------------
  // The store
  // ---------------------------------------------------------------------

  /** The database connection: six tables updated in place. */
  class Store {
    var items: map<string, ItemRecord>
    var statusEffects: map<string, EffectRecord>
    var armorSets: map<string, SetRecord>
    var itemEffects: map<(string, string), bool>
    var setItems: set<(string, string)>
    var setEffects: set<(string, string)>

    function Snapshot(): Tables
      reads this
    {
      Tables(items, statusEffects, armorSets, itemEffects, setItems, setEffects)
    }

    /** A freshly provisioned, empty store. */
    constructor ()
      ensures Snapshot() == EmptyTables
    {
      items, statusEffects, armorSets := map[], map[], map[];
      itemEffects, setItems, setEffects := map[], {}, {};
    }

    /** `c.execute(...)` for one statement. */
    method Execute(s: Stmt)
      modifies this
      ensures Snapshot() == Apply(old(Snapshot()), s)
    {
      match s
      case UpsertEffect(k, r) => statusEffects := statusEffects[k := r];
      case UpsertItem(k, r) => items := items[k := r];
      case UpsertSet(k, r) => armorSets := armorSets[k := r];
      case DeleteItemEffects(k) => itemEffects := OtherItems(itemEffects, k);
      case PutItemEffect(k, e, h) => itemEffects := itemEffects[(k, e) := h];
      case DeleteSetItems(k) => setItems := OtherSets(setItems, k);
      case PutSetItem(k, i) => setItems := setItems + {(k, i)};
      case DeleteSetEffects(k) => setEffects := OtherSets(setEffects, k);
      case PutSetEffect(k, e) => setEffects := setEffects + {(k, e)};
    }

    /** The body of one row's `try`: run its statements in order until the
      row raises; what already ran stays. */
    method RunRow(ss: seq<Stmt>, fault: Option<nat>)
      modifies this
      ensures Snapshot() == Run(old(Snapshot()), Completed(ss, fault))
    {
      var done := Completed(ss, fault);
      var i := 0;
      while i < |done|
        invariant 0 <= i <= |done|
        invariant Run(Snapshot(), done[i..]) == Run(old(Snapshot()), done)
      {
        assert done[i..][1..] == done[i + 1..];
        Execute(done[i]);
        i := i + 1;
      }
    }

    /** `process_status_effects` on the rows of one document. */
    method ProcessStatusEffects(rows: seq<EffectRow>, loc: Localization)
      modifies this
      ensures Snapshot() == LoadEffects(old(Snapshot()), rows, loc)
    {
      var i := 0;
      while i < |rows|
        invariant 0 <= i <= |rows|
        invariant LoadEffects(Snapshot(), rows[i..], loc) == LoadEffects(old(Snapshot()), rows, loc)
      {
        var row := rows[i];
        assert rows[i..][1..] == rows[i + 1..];
        var name := GetLocalizedString(loc, row.name.GetOr(map[]));
        var icon := WebAssetPath(row.icon.GetOr(""), true);
        RunRow([UpsertEffect(row.key, EffectRecord(name, icon))], row.fault);
        i := i + 1;
      }
    }

    /** `process_all_items` on the rows of one document. */
    method ProcessAllItems(rows: seq<ItemRow>, loc: Localization)
      modifies this
      ensures Snapshot() == LoadItems(old(Snapshot()), rows, loc)
    {
      var i := 0;
      while i < |rows|
        invariant 0 <= i <= |rows|
        invariant LoadItems(Snapshot(), rows[i..], loc) == LoadItems(old(Snapshot()), rows, loc)
      {
        var row := rows[i];
        assert rows[i..][1..] == rows[i + 1..];
        var name := GetLocalizedString(loc, row.displayName.GetOr(map[]));
        var record := ItemRecordOf(row, loc).(name := name);
        RunRow(ItemStatements(row, record), row.fault);
        i := i + 1;
      }
    }

    /** Lines 178-211: query the set's member items and their effect rows,
      and derive the set's name, tier and class from them. */
    method DeriveSet(row: SetRow, o: Orders) returns (record: SetRecord)
      ensures record == SetRecordOf(Snapshot(), row, o)
    {
      var keys := NonEmpty(row.items);
      var members: seq<ItemRecord> := [];
      var setClass := "";
      if keys != [] {
        members := MemberRecords(items, o.members(set k | k in keys && k in items));
        var effects := EffectKeysOf(o.memberEffects(set p | p in itemEffects && p.0 in keys));
        setClass := FindClass(effects);
      }
      record := SetRecord(SetName(NamesOf(members)), SetTier(o.tiers(TruthyTiers(TiersOf(members)))), setClass);
    }

    /** `process_item_sets` on the rows of one document: query the member
      items and their effects, derive name, tier and class, then write. */
    method ProcessItemSets(rows: seq<SetRow>, o: Orders)
      modifies this
      ensures Snapshot() == LoadSets(old(Snapshot()), rows, o)
    {
      var i := 0;
      while i < |rows|
        invariant 0 <= i <= |rows|
        invariant LoadSets(Snapshot(), rows[i..], o) == LoadSets(old(Snapshot()), rows, o)
      {
        var row := rows[i];
        assert rows[i..][1..] == rows[i + 1..];
        var record := DeriveSet(row, o);
        RunRow(SetStatements(row.key, record, NonEmpty(row.items), NonEmpty(row.statusEffects)), row.fault);
        i := i + 1;
      }
    }
  }
}
