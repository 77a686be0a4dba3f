/** What the entity loaders of scripts/5_update_database.py promise about the
    tables: each row touches only its own key, a row that succeeds leaves its
    key's rows exactly as the document says, a row that raises does not stop
    the rows after it, and loading a row twice is loading it once. */
module Loading {
  import opened Common
  import opened Resolver
  import opened Derivation
  import opened Store

  /** A row got past its first statement: it did not raise, or it raised
      after at least one statement. */
  predicate Started(fault: Option<nat>) {
    fault.None? || fault.value > 0
  }

  // ---------------------------------------------------------------------
  // Status effects
  // ---------------------------------------------------------------------

  /** A status-effect row sets its own key's row, once it gets that far, and
      leaves every other table and key as it was. */
  lemma EffectStepSpec(t: Tables, row: EffectRow, loc: Localization)
    ensures var u := EffectStep(t, row, loc);
      && u.items == t.items && u.armorSets == t.armorSets && u.itemEffects == t.itemEffects
      && u.setItems == t.setItems && u.setEffects == t.setEffects
      && u.statusEffects - {row.key} == t.statusEffects - {row.key}
      && (Started(row.fault) ==> row.key in u.statusEffects && u.statusEffects[row.key] == EffectRecordOf(row, loc))
      && (!Started(row.fault) ==> u == t)
  {
    RunUpsertEffect(t, row.key, EffectRecordOf(row, loc), row.fault);
  }

  /** The one statement of a status-effect row, run if the row gets to it. */
  lemma RunUpsertEffect(t: Tables, k: string, r: EffectRecord, fault: Option<nat>)
    ensures Run(t, Completed([UpsertEffect(k, r)], fault)) ==
      if Started(fault) then t.(statusEffects := t.statusEffects[k := r]) else t
  {
    var ss := [UpsertEffect(k, r)];
    var done := Completed(ss, fault);
    if done != [] {
      assert done == ss;
      assert Run(t, done) == Run(Apply(t, ss[0]), []);
    }
  }

  /** Rows of other keys leave status effect `k` alone. */
  lemma {:induction false} LoadEffectsOtherKeys(t: Tables, rows: seq<EffectRow>, loc: Localization, k: string)
    requires forall j :: 0 <= j < |rows| ==> rows[j].key != k
    decreases |rows|
    ensures var u := LoadEffects(t, rows, loc);
      (k in u.statusEffects <==> k in t.statusEffects) && (k in t.statusEffects ==> u.statusEffects[k] == t.statusEffects[k])
  {
    if rows != [] {
      var t1 := EffectStep(t, rows[0], loc);
      EffectStepSpec(t, rows[0], loc);
      assert k in t.statusEffects ==> t.statusEffects[k] == (t.statusEffects - {rows[0].key})[k];
      assert k in t1.statusEffects ==> t1.statusEffects[k] == (t1.statusEffects - {rows[0].key})[k];
      assert k in t1.statusEffects <==> k in t1.statusEffects - {rows[0].key};
      assert k in t.statusEffects <==> k in t.statusEffects - {rows[0].key};
      LoadEffectsOtherKeys(t1, rows[1..], loc, k);
    }
  }

  /** A row that raises is skipped and the rows after it are still loaded:
      the last row of a key, once it gets to its upsert, decides that key's
      StatusEffects row. */
  lemma {:induction false} LoadEffectsLastRowWins(t: Tables, rows: seq<EffectRow>, loc: Localization, i: nat)
    requires i < |rows| && Started(rows[i].fault)
    requires forall j :: i < j < |rows| ==> rows[j].key != rows[i].key
    decreases i
    ensures var u := LoadEffects(t, rows, loc);
      rows[i].key in u.statusEffects && u.statusEffects[rows[i].key] == EffectRecordOf(rows[i], loc)
  {
    var t1 := EffectStep(t, rows[0], loc);
    if i == 0 {
      EffectStepSpec(t, rows[0], loc);
      LoadEffectsOtherKeys(t1, rows[1..], loc, rows[0].key);
    } else {
      assert rows[1..][i - 1] == rows[i];
      LoadEffectsLastRowWins(t1, rows[1..], loc, i - 1);
    }
  }

  /** After loading a document, a key holds a StatusEffects row exactly when
      it held one before or one of its rows got to its upsert. */
  lemma {:induction false} LoadEffectsKeys(t: Tables, rows: seq<EffectRow>, loc: Localization)
    decreases |rows|
    ensures forall k :: k in LoadEffects(t, rows, loc).statusEffects <==>
      k in t.statusEffects || exists j :: 0 <= j < |rows| && rows[j].key == k && Started(rows[j].fault)
  {
    if rows != [] {
      var t1 := EffectStep(t, rows[0], loc);
      EffectStepSpec(t, rows[0], loc);
      LoadEffectsKeys(t1, rows[1..], loc);
      var u := LoadEffects(t, rows, loc);
      assert u == LoadEffects(t1, rows[1..], loc);
      forall k | k in u.statusEffects
        ensures k in t.statusEffects || exists j :: 0 <= j < |rows| && rows[j].key == k && Started(rows[j].fault)
      {
        if k !in t1.statusEffects {
          var j :| 0 <= j < |rows[1..]| && rows[1..][j].key == k && Started(rows[1..][j].fault);
          assert rows[j + 1] == rows[1..][j];
        } else if k !in t.statusEffects {
          assert k in t1.statusEffects - {rows[0].key} <==> k in t.statusEffects - {rows[0].key};
        }
      }
      forall k | exists j :: 0 <= j < |rows| && rows[j].key == k && Started(rows[j].fault)
        ensures k in u.statusEffects
      {
        var j :| 0 <= j < |rows| && rows[j].key == k && Started(rows[j].fault);
        if j == 0 {
          assert k in t1.statusEffects;
        } else {
          assert rows[1..][j - 1] == rows[j];
          assert exists j' :: 0 <= j' < |rows[1..]| && rows[1..][j'].key == k && Started(rows[1..][j'].fault);
        }
      }
      forall k | k in t.statusEffects ensures k in t1.statusEffects {
        if k != rows[0].key {
          assert k in t.statusEffects - {rows[0].key};
        }
      }
    }
  }

  // ---------------------------------------------------------------------
  // Items
  // ---------------------------------------------------------------------

  /** `u` is `t` except for item `k`'s Items row and its effect rows. */
  ghost predicate SameBesideItem(t: Tables, u: Tables, k: string) {
    && u.items - {k} == t.items - {k}
    && OtherItems(u.itemEffects, k) == OtherItems(t.itemEffects, k)
    && u.statusEffects == t.statusEffects && u.armorSets == t.armorSets
    && u.setItems == t.setItems && u.setEffects == t.setEffects
  }

  /** Item `k`'s Items row and effect rows are the same in `t` and `u`. */
  ghost predicate SameItem(t: Tables, u: Tables, k: string) {
    && (k in t.items <==> k in u.items)
    && (k in t.items ==> t.items[k] == u.items[k])
    && (forall e :: (k, e) in t.itemEffects <==> (k, e) in u.itemEffects)
    && (forall e :: (k, e) in t.itemEffects ==> t.itemEffects[(k, e)] == u.itemEffects[(k, e)])
  }

  predicate ItemStatement(s: Stmt, k: string) {
    (s.UpsertItem? || s.DeleteItemEffects? || s.PutItemEffect?) && s.key == k
  }

  /** Statements about item `k` change nothing else, and drop no Items row. */
  lemma {:induction false} RunItemStatements(t: Tables, ss: seq<Stmt>, k: string)
    requires forall i :: 0 <= i < |ss| ==> ItemStatement(ss[i], k)
    decreases |ss|
    ensures SameBesideItem(t, Run(t, ss), k)
    ensures t.items.Keys <= Run(t, ss).items.Keys
    ensures ss != [] && ss[0].UpsertItem? ==> k in Run(t, ss).items
  {
    if ss != [] {
      var u := Apply(t, ss[0]);
      assert SameBesideItem(t, u, k) by {
        match ss[0]
        case UpsertItem(_, r) =>
          assert u.items - {k} == t.items - {k};
        case DeleteItemEffects(_) =>
          assert OtherItems(u.itemEffects, k) == OtherItems(t.itemEffects, k);
        case PutItemEffect(_, e, h) =>
          assert OtherItems(u.itemEffects, k) == OtherItems(t.itemEffects, k);
      }
      RunItemStatements(u, ss[1..], k);
      var w := Run(u, ss[1..]);
      assert w.items - {k} == t.items - {k};
      assert OtherItems(w.itemEffects, k) == OtherItems(t.itemEffects, k);
    }
  }

  /** An item row, even one that raises part-way, changes nothing but its own
      Items row and that item's effect rows, and adds its Items row once it
      gets to its upsert. */
  lemma ItemStepLocal(t: Tables, row: ItemRow, loc: Localization)
    ensures SameBesideItem(t, ItemStep(t, row, loc), row.key)
    ensures forall k :: k in ItemStep(t, row, loc).items <==> k in t.items || (k == row.key && Started(row.fault))
  {
    var ss := ItemStatements(row, ItemRecordOf(row, loc));
    var done := Completed(ss, row.fault);
    assert forall i :: 0 <= i < |done| ==> done[i] == ss[i];
    RunItemStatements(t, done, row.key);
    var u := ItemStep(t, row, loc);
    if !Started(row.fault) {
      assert done == [];
    }
    forall k | k in u.items ensures k in t.items || (k == row.key && Started(row.fault)) {
      if k != row.key {
        assert k in u.items - {row.key};
      }
    }
    forall k | k in t.items ensures k in u.items {
    }
  }

  /** Putting effect rows for `key`: each non-empty name gets a row with the
      given flag; nothing else changes. */
  lemma {:induction false} RunPutItemEffects(t: Tables, key: string, names: seq<string>, hidden: bool)
    decreases |names|
    ensures var u := Run(t, PutItemEffects(key, names, hidden));
      && u == t.(itemEffects := u.itemEffects)
      && (forall p :: p in u.itemEffects <==> p in t.itemEffects || (p.0 == key && p.1 in names && p.1 != ""))
      && (forall p :: p in u.itemEffects ==>
            u.itemEffects[p] == if p.0 == key && p.1 in names && p.1 != "" then hidden else t.itemEffects[p])
  {
    if names != [] {
      var head := if names[0] != "" then [PutItemEffect(key, names[0], hidden)] else [];
      RunAppend(t, head, PutItemEffects(key, names[1..], hidden));
      var t1 := Run(t, head);
      if names[0] != "" {
        assert t1 == Run(Apply(t, head[0]), []);
      }
      RunPutItemEffects(t1, key, names[1..], hidden);
      assert forall e :: e in names <==> e == names[0] || e in names[1..];
    }
  }

  /** After an item row that does not raise: its Items row is the row's
      record; its effect rows are exactly its non-empty StatusEffects and
      HiddenStatusEffects RowNames, hidden exactly when listed among the
      hidden ones (so a name in both lists ends up hidden); everything else
      is as before. */
  lemma ItemStepComplete(t: Tables, row: ItemRow, loc: Localization)
    requires row.fault.None?
    ensures var u := ItemStep(t, row, loc); var eq := EquipmentOf(row);
      && SameBesideItem(t, u, row.key)
      && row.key in u.items && u.items[row.key] == ItemRecordOf(row, loc)
      && (forall e :: (row.key, e) in u.itemEffects <==>
            e != "" && (e in eq.statusEffects || e in eq.hiddenStatusEffects))
      && (forall e :: (row.key, e) in u.itemEffects ==> u.itemEffects[(row.key, e)] == (e in eq.hiddenStatusEffects))
  {
    ItemStepLocal(t, row, loc);
    var eq := EquipmentOf(row);
    var head := [UpsertItem(row.key, ItemRecordOf(row, loc)), DeleteItemEffects(row.key)];
    var visible := PutItemEffects(row.key, eq.statusEffects, false);
    var hidden := PutItemEffects(row.key, eq.hiddenStatusEffects, true);
    assert ItemStatements(row, ItemRecordOf(row, loc)) == head + visible + hidden;
    RunAppend(t, head + visible, hidden);
    RunAppend(t, head, visible);
    var t1 := Run(t, head);
    assert head[1..] == [head[1]] && head[1..][1..] == [];
    assert t1 == Run(Apply(Apply(t, head[0]), head[1]), []);
    assert forall e :: (row.key, e) !in t1.itemEffects;
    RunPutItemEffects(t1, row.key, eq.statusEffects, false);
    RunPutItemEffects(Run(t1, visible), row.key, eq.hiddenStatusEffects, true);
  }

  /** Loading an item row twice is loading it once. */
  lemma ItemStepIdempotent(t: Tables, row: ItemRow, loc: Localization)
    requires row.fault.None?
    ensures ItemStep(ItemStep(t, row, loc), row, loc) == ItemStep(t, row, loc)
  {
    var u := ItemStep(t, row, loc);
    var w := ItemStep(u, row, loc);
    ItemStepComplete(t, row, loc);
    ItemStepComplete(u, row, loc);
    var k := row.key;
    assert w.items == u.items by {
      assert w.items - {k} == u.items - {k};
      assert forall j :: j in w.items <==> j in u.items by {
        forall j ensures j in w.items <==> j in u.items {
          if j != k {
            assert (j in w.items <==> j in w.items - {k}) && (j in u.items <==> j in u.items - {k});
          }
        }
      }
      forall j | j in w.items ensures w.items[j] == u.items[j] {
        if j != k {
          assert (w.items - {k})[j] == (u.items - {k})[j];
        }
      }
    }
    assert w.itemEffects == u.itemEffects by {
      assert OtherItems(w.itemEffects, k) == OtherItems(u.itemEffects, k);
      forall p ensures p in w.itemEffects <==> p in u.itemEffects {
        if p.0 != k {
          assert (p in w.itemEffects <==> p in OtherItems(w.itemEffects, k));
          assert (p in u.itemEffects <==> p in OtherItems(u.itemEffects, k));
        }
      }
      forall p | p in w.itemEffects ensures w.itemEffects[p] == u.itemEffects[p] {
        if p.0 != k {
          assert OtherItems(w.itemEffects, k)[p] == OtherItems(u.itemEffects, k)[p];
        }
      }
    }
  }

  /** Rows of other items leave item `k` alone. */
  lemma {:induction false} LoadItemsOtherKeys(t: Tables, rows: seq<ItemRow>, loc: Localization, k: string)
    requires forall j :: 0 <= j < |rows| ==> rows[j].key != k
    decreases |rows|
    ensures SameItem(t, LoadItems(t, rows, loc), k)
  {
    if rows != [] {
      var t1 := ItemStep(t, rows[0], loc);
      ItemStepLocal(t, rows[0], loc);
      assert SameItem(t, t1, k) by {
        assert k in t.items ==> t.items[k] == (t.items - {rows[0].key})[k];
        assert k in t1.items ==> t1.items[k] == (t1.items - {rows[0].key})[k];
        forall e ensures (k, e) in t.itemEffects <==> (k, e) in t1.itemEffects {
          assert (k, e) in t.itemEffects <==> (k, e) in OtherItems(t.itemEffects, rows[0].key);
          assert (k, e) in t1.itemEffects <==> (k, e) in OtherItems(t1.itemEffects, rows[0].key);
        }
        forall e | (k, e) in t.itemEffects ensures t.itemEffects[(k, e)] == t1.itemEffects[(k, e)] {
          assert OtherItems(t.itemEffects, rows[0].key)[(k, e)] == OtherItems(t1.itemEffects, rows[0].key)[(k, e)];
        }
      }
      LoadItemsOtherKeys(t1, rows[1..], loc, k);
    }
  }

  /** A row that raises is skipped and the rows after it are still loaded:
      the last row of an item, when it does not raise, decides that item's
      Items row and effect rows, whatever the rows before it did. */
  lemma {:induction false} LoadItemsLastRowWins(t: Tables, rows: seq<ItemRow>, loc: Localization, i: nat)
    requires i < |rows| && rows[i].fault.None?
    requires forall j :: i < j < |rows| ==> rows[j].key != rows[i].key
    decreases i
    ensures var u := LoadItems(t, rows, loc); var k := rows[i].key; var eq := EquipmentOf(rows[i]);
      && k in u.items && u.items[k] == ItemRecordOf(rows[i], loc)
      && (forall e :: (k, e) in u.itemEffects <==>
            e != "" && (e in eq.statusEffects || e in eq.hiddenStatusEffects))
      && (forall e :: (k, e) in u.itemEffects ==> u.itemEffects[(k, e)] == (e in eq.hiddenStatusEffects))
  {
    var t1 := ItemStep(t, rows[0], loc);
    if i == 0 {
      ItemStepComplete(t, rows[0], loc);
      LoadItemsOtherKeys(t1, rows[1..], loc, rows[0].key);
    } else {
      assert rows[1..][i - 1] == rows[i];
      LoadItemsLastRowWins(t1, rows[1..], loc, i - 1);
    }
  }

  /** After loading a document, an item has an Items row exactly when it had
      one before or one of its rows got to its upsert. */
  lemma {:induction false} LoadItemsKeys(t: Tables, rows: seq<ItemRow>, loc: Localization)
    decreases |rows|
    ensures forall k :: k in LoadItems(t, rows, loc).items <==>
      k in t.items || exists j :: 0 <= j < |rows| && rows[j].key == k && Started(rows[j].fault)
  {
    if rows != [] {
      var t1 := ItemStep(t, rows[0], loc);
      ItemStepLocal(t, rows[0], loc);
      LoadItemsKeys(t1, rows[1..], loc);
      var u := LoadItems(t, rows, loc);
      assert u == LoadItems(t1, rows[1..], loc);
      forall k | k in u.items
        ensures k in t.items || exists j :: 0 <= j < |rows| && rows[j].key == k && Started(rows[j].fault)
      {
        if k !in t1.items {
          var j :| 0 <= j < |rows[1..]| && rows[1..][j].key == k && Started(rows[1..][j].fault);
          assert rows[j + 1] == rows[1..][j];
        }
      }
      forall k | exists j :: 0 <= j < |rows| && rows[j].key == k && Started(rows[j].fault)
        ensures k in u.items
      {
        var j :| 0 <= j < |rows| && rows[j].key == k && Started(rows[j].fault);
        if j == 0 {
          assert k in t1.items;
        } else {
          assert rows[1..][j - 1] == rows[j];
          assert exists j' :: 0 <= j' < |rows[1..]| && rows[1..][j'].key == k && Started(rows[1..][j'].fault);
        }
      }
    }
  }

  /** The defaults of an Items row: Tier -1 when absent, NULL when null; Slot
      "None" when absent, and the "EEquipmentSlot::" prefix gone; damage
      figures 0.0 without EquippableData. */
  lemma ItemDefaults(row: ItemRow, loc: Localization)
    ensures var r := ItemRecordOf(row, loc);
      && (row.tier.NoTier? ==> r.tier == Some(-1))
      && (row.tier.NullTier? ==> r.tier.None?)
      && (row.tier.Tier? ==> r.tier == Some(row.tier.value))
      && (row.slot.None? ==> r.slot == "None")
      && (forall s :: row.slot == Some(SlotPrefix + s) && !Contains(s, SlotPrefix) ==> r.slot == s)
      && (row.equippable.None? ==>
            r.durability == 0.0 && r.flatDamageReduction == 0.0 && r.percentageDamageReduction == 0.0)
  {
    forall s | row.slot == Some(SlotPrefix + s) && !Contains(s, SlotPrefix)
      ensures RemoveAll(SlotPrefix + s, SlotPrefix) == s
    {
      RemovePrefix(s);
    }
    assert !Contains("None", SlotPrefix) by {
      ContainsIff("None", SlotPrefix);
    }
  }

  lemma RemovePrefix(s: string)
    requires !Contains(s, SlotPrefix)
    ensures RemoveAll(SlotPrefix + s, SlotPrefix) == s
  {
    assert OccursAt(SlotPrefix + s, SlotPrefix, 0);
    assert (SlotPrefix + s)[|SlotPrefix|..] == s;
  }

  // ---------------------------------------------------------------------
  // Item sets
  // ---------------------------------------------------------------------

  /** `u` is `t` except for set `k`'s ArmorSets row and its association rows. */
  ghost predicate SameBesideSet(t: Tables, u: Tables, k: string) {
    && u.armorSets - {k} == t.armorSets - {k}
    && OtherSets(u.setItems, k) == OtherSets(t.setItems, k)
    && OtherSets(u.setEffects, k) == OtherSets(t.setEffects, k)
    && u.items == t.items && u.statusEffects == t.statusEffects && u.itemEffects == t.itemEffects
  }

  predicate SetStatement(s: Stmt, k: string) {
    && (s.UpsertSet? || s.DeleteSetItems? || s.PutSetItem? || s.DeleteSetEffects? || s.PutSetEffect?)
    && s.key == k
  }

  /** Statements about set `k` change nothing else. */
  lemma {:induction false} RunSetStatements(t: Tables, ss: seq<Stmt>, k: string)
    requires forall i :: 0 <= i < |ss| ==> SetStatement(ss[i], k)
    decreases |ss|
    ensures SameBesideSet(t, Run(t, ss), k)
    ensures t.armorSets.Keys <= Run(t, ss).armorSets.Keys
    ensures ss != [] && ss[0].UpsertSet? ==> k in Run(t, ss).armorSets
  {
    if ss != [] {
      var u := Apply(t, ss[0]);
      assert SameBesideSet(t, u, k) by {
        assert u.armorSets - {k} == t.armorSets - {k};
        assert OtherSets(u.setItems, k) == OtherSets(t.setItems, k);
        assert OtherSets(u.setEffects, k) == OtherSets(t.setEffects, k);
      }
      RunSetStatements(u, ss[1..], k);
      var w := Run(u, ss[1..]);
      assert w.armorSets - {k} == t.armorSets - {k};
    }
  }

  function SetStatementsOf(t: Tables, row: SetRow, o: Orders): seq<Stmt> {
    SetStatements(row.key, SetRecordOf(t, row, o), NonEmpty(row.items), NonEmpty(row.statusEffects))
  }

  /** Every statement of a set row is about that set. */
  lemma SetStatementsKeyed(k: string, r: SetRecord, xs: seq<string>, es: seq<string>)
    ensures var ss := SetStatements(k, r, xs, es);
      forall i :: 0 <= i < |ss| ==> SetStatement(ss[i], k)
  {
    var ss := SetStatements(k, r, xs, es);
    var n := 2 + |xs|;
    forall i | 0 <= i < |ss| ensures SetStatement(ss[i], k) {
      if 2 <= i < n {
        assert ss[i] == PutSetItems(k, xs)[i - 2];
      } else if n < i {
        assert ss[i] == PutSetEffects(k, es)[i - n - 1];
      }
    }
  }

  /** A set row, even one that raises part-way, changes nothing but its own
      ArmorSets row and its ArmorSet_Items and ArmorSet_Effects rows. */
  lemma SetStepLocal(t: Tables, row: SetRow, o: Orders)
    ensures SameBesideSet(t, SetStep(t, row, o), row.key)
    ensures forall k :: k in SetStep(t, row, o).armorSets <==> k in t.armorSets || (k == row.key && Started(row.fault))
  {
    var r := SetRecordOf(t, row, o);
    var ss := SetStatements(row.key, r, NonEmpty(row.items), NonEmpty(row.statusEffects));
    SetStatementsKeyed(row.key, r, NonEmpty(row.items), NonEmpty(row.statusEffects));
    var done := Completed(ss, row.fault);
    assert forall i :: 0 <= i < |done| ==> done[i] == ss[i];
    RunSetStatements(t, done, row.key);
    var u := SetStep(t, row, o);
    if !Started(row.fault) {
      assert done == [];
    }
    forall k | k in u.armorSets ensures k in t.armorSets || (k == row.key && Started(row.fault)) {
      if k != row.key {
        assert k in u.armorSets - {row.key};
      }
    }
  }

  /** Putting ArmorSet_Items rows for `key`: one per listed item. */
  lemma {:induction false} RunPutSetItems(t: Tables, key: string, xs: seq<string>)
    decreases |xs|
    ensures Run(t, PutSetItems(key, xs)) == t.(setItems := t.setItems + set x | x in xs :: (key, x))
  {
    if xs != [] {
      var ss := PutSetItems(key, xs);
      assert ss == [PutSetItem(key, xs[0])] + PutSetItems(key, xs[1..]);
      assert ss[1..] == PutSetItems(key, xs[1..]);
      var t1 := Apply(t, ss[0]);
      assert t1 == t.(setItems := t.setItems + {(key, xs[0])});
      RunPutSetItems(t1, key, xs[1..]);
      var rest := set x | x in xs[1..] :: (key, x);
      assert (set x | x in xs :: (key, x)) == {(key, xs[0])} + rest by {
        assert forall x :: x in xs <==> x == xs[0] || x in xs[1..];
      }
    }
  }

  /** Putting ArmorSet_Effects rows for `key`: one per listed effect. */
  lemma {:induction false} RunPutSetEffects(t: Tables, key: string, xs: seq<string>)
    decreases |xs|
    ensures Run(t, PutSetEffects(key, xs)) == t.(setEffects := t.setEffects + set x | x in xs :: (key, x))
  {
    if xs != [] {
      var ss := PutSetEffects(key, xs);
      assert ss == [PutSetEffect(key, xs[0])] + PutSetEffects(key, xs[1..]);
      assert ss[1..] == PutSetEffects(key, xs[1..]);
      var t1 := Apply(t, ss[0]);
      assert t1 == t.(setEffects := t.setEffects + {(key, xs[0])});
      RunPutSetEffects(t1, key, xs[1..]);
      var rest := set x | x in xs[1..] :: (key, x);
      assert (set x | x in xs :: (key, x)) == {(key, xs[0])} + rest by {
        assert forall x :: x in xs <==> x == xs[0] || x in xs[1..];
      }
    }
  }

  /** Running one statement is applying it. */
  lemma RunOne(t: Tables, st: Stmt)
    ensures Run(t, [st]) == Apply(t, st)
  {
    assert [st][1..] == [];
  }

  /** All statements of a set row, run to the end: the upsert, and the set's
      association rows replaced by the listed ones. */
  lemma RunSetRow(t: Tables, k: string, r: SetRecord, xs: seq<string>, es: seq<string>)
    ensures Run(t, SetStatements(k, r, xs, es)) ==
      t.(armorSets := t.armorSets[k := r],
         setItems := OtherSets(t.setItems, k) + set x | x in xs :: (k, x),
         setEffects := OtherSets(t.setEffects, k) + set e | e in es :: (k, e))
  {
    var items := [UpsertSet(k, r), DeleteSetItems(k)] + PutSetItems(k, xs);
    var effects := [DeleteSetEffects(k)] + PutSetEffects(k, es);
    assert SetStatements(k, r, xs, es) == items + effects;
    RunAppend(t, items, effects);
    var t1 := RunItemsPart(t, k, r, xs);
    RunAppend(t1, [DeleteSetEffects(k)], PutSetEffects(k, es));
    RunOne(t1, DeleteSetEffects(k));
    RunPutSetEffects(Apply(t1, DeleteSetEffects(k)), k, es);
  }

  /** The upsert, the delete and the ArmorSet_Items puts of a set row. */
  lemma RunItemsPart(t: Tables, k: string, r: SetRecord, xs: seq<string>) returns (u: Tables)
    ensures u == Run(t, [UpsertSet(k, r), DeleteSetItems(k)] + PutSetItems(k, xs))
    ensures u == t.(armorSets := t.armorSets[k := r],
                    setItems := OtherSets(t.setItems, k) + set x | x in xs :: (k, x))
  {
    var head := [UpsertSet(k, r), DeleteSetItems(k)];
    RunAppend(t, head, PutSetItems(k, xs));
    assert head == [UpsertSet(k, r)] + [DeleteSetItems(k)];
    RunAppend(t, [UpsertSet(k, r)], [DeleteSetItems(k)]);
    RunOne(t, UpsertSet(k, r));
    RunOne(Apply(t, UpsertSet(k, r)), DeleteSetItems(k));
    RunPutSetItems(Run(t, head), k, xs);
    u := Run(t, head + PutSetItems(k, xs));
  }

  /** After a set row that does not raise: its ArmorSets row is the derived
      record, its ArmorSet_Items and ArmorSet_Effects rows are exactly its
      non-empty item and effect RowNames, and everything else is as before. */
  lemma SetStepComplete(t: Tables, row: SetRow, o: Orders)
    requires row.fault.None?
    ensures var u := SetStep(t, row, o);
      && SameBesideSet(t, u, row.key)
      && row.key in u.armorSets && u.armorSets[row.key] == SetRecordOf(t, row, o)
      && (forall x :: (row.key, x) in u.setItems <==> x in row.items && x != "")
      && (forall x :: (row.key, x) in u.setEffects <==> x in row.statusEffects && x != "")
  {
    SetStepLocal(t, row, o);
    RunSetRow(t, row.key, SetRecordOf(t, row, o), NonEmpty(row.items), NonEmpty(row.statusEffects));
  }

  /** The derived record reads only Items and Item_StatusEffects. */
  lemma SetRecordReads(t: Tables, u: Tables, row: SetRow, o: Orders)
    requires u.items == t.items && u.itemEffects == t.itemEffects
    ensures SetRecordOf(u, row, o) == SetRecordOf(t, row, o)
  {
  }

  /** Loading a set row twice is loading it once. */
  lemma SetStepIdempotent(t: Tables, row: SetRow, o: Orders)
    requires row.fault.None?
    ensures SetStep(SetStep(t, row, o), row, o) == SetStep(t, row, o)
  {
    var u := SetStep(t, row, o);
    var w := SetStep(u, row, o);
    var k := row.key;
    SetStepComplete(t, row, o);
    SetRecordReads(t, u, row, o);
    SetStepComplete(u, row, o);
    assert w.armorSets == u.armorSets by {
      forall j ensures j in w.armorSets <==> j in u.armorSets {
        if j != k {
          assert (j in w.armorSets <==> j in w.armorSets - {k}) && (j in u.armorSets <==> j in u.armorSets - {k});
        }
      }
      forall j | j in w.armorSets ensures w.armorSets[j] == u.armorSets[j] {
        if j != k {
          assert (w.armorSets - {k})[j] == (u.armorSets - {k})[j];
        }
      }
    }
    assert w.setItems == u.setItems by {
      forall p ensures p in w.setItems <==> p in u.setItems {
        if p.0 != k {
          assert (p in w.setItems <==> p in OtherSets(w.setItems, k)) && (p in u.setItems <==> p in OtherSets(u.setItems, k));
        }
      }
    }
    assert w.setEffects == u.setEffects by {
      forall p ensures p in w.setEffects <==> p in u.setEffects {
        if p.0 != k {
          assert (p in w.setEffects <==> p in OtherSets(w.setEffects, k)) && (p in u.setEffects <==> p in OtherSets(u.setEffects, k));
        }
      }
    }
  }

  /** Set `k`'s ArmorSets row and association rows are the same in `t` and `u`. */
  ghost predicate SameSet(t: Tables, u: Tables, k: string) {
    && (k in t.armorSets <==> k in u.armorSets)
    && (k in t.armorSets ==> t.armorSets[k] == u.armorSets[k])
    && (forall x :: (k, x) in t.setItems <==> (k, x) in u.setItems)
    && (forall x :: (k, x) in t.setEffects <==> (k, x) in u.setEffects)
  }

  /** Loading the sets reads Items and Item_StatusEffects but writes neither,
      nor StatusEffects. */
  lemma {:induction false} LoadSetsKeepsItems(t: Tables, rows: seq<SetRow>, o: Orders)
    decreases |rows|
    ensures var u := LoadSets(t, rows, o);
      u.items == t.items && u.itemEffects == t.itemEffects && u.statusEffects == t.statusEffects
  {
    if rows != [] {
      SetStepLocal(t, rows[0], o);
      LoadSetsKeepsItems(SetStep(t, rows[0], o), rows[1..], o);
    }
  }

  /** Rows of other sets leave set `k` alone. */
  lemma {:induction false} LoadSetsOtherKeys(t: Tables, rows: seq<SetRow>, o: Orders, k: string)
    requires forall j :: 0 <= j < |rows| ==> rows[j].key != k
    decreases |rows|
    ensures SameSet(t, LoadSets(t, rows, o), k)
  {
    if rows != [] {
      var key := rows[0].key;
      var t1 := SetStep(t, rows[0], o);
      SetStepLocal(t, rows[0], o);
      assert SameSet(t, t1, k) by {
        assert k in t.armorSets ==> t.armorSets[k] == (t.armorSets - {key})[k];
        assert k in t1.armorSets ==> t1.armorSets[k] == (t1.armorSets - {key})[k];
        forall x ensures (k, x) in t.setItems <==> (k, x) in t1.setItems {
          assert (k, x) in t.setItems <==> (k, x) in OtherSets(t.setItems, key);
          assert (k, x) in t1.setItems <==> (k, x) in OtherSets(t1.setItems, key);
        }
        forall x ensures (k, x) in t.setEffects <==> (k, x) in t1.setEffects {
          assert (k, x) in t.setEffects <==> (k, x) in OtherSets(t.setEffects, key);
          assert (k, x) in t1.setEffects <==> (k, x) in OtherSets(t1.setEffects, key);
        }
      }
      LoadSetsOtherKeys(t1, rows[1..], o, k);
    }
  }

  /** A set row that raises is skipped and the rows after it are still
      loaded: the last row of a set, when it does not raise, decides that
      set's ArmorSets row (derived from the Items the store held before the
      document) and its ArmorSet_Items and ArmorSet_Effects rows. */
  lemma {:induction false} LoadSetsLastRowWins(t: Tables, rows: seq<SetRow>, o: Orders, i: nat)
    requires i < |rows| && rows[i].fault.None?
    requires forall j :: i < j < |rows| ==> rows[j].key != rows[i].key
    decreases i
    ensures var u := LoadSets(t, rows, o); var k := rows[i].key;
      && k in u.armorSets && u.armorSets[k] == SetRecordOf(t, rows[i], o)
      && (forall x :: (k, x) in u.setItems <==> x in rows[i].items && x != "")
      && (forall x :: (k, x) in u.setEffects <==> x in rows[i].statusEffects && x != "")
  {
    var t1 := SetStep(t, rows[0], o);
    if i == 0 {
      SetStepComplete(t, rows[0], o);
      LoadSetsOtherKeys(t1, rows[1..], o, rows[0].key);
    } else {
      assert rows[1..][i - 1] == rows[i];
      LoadSetsLastRowWins(t1, rows[1..], o, i - 1);
      SetStepLocal(t, rows[0], o);
      SetRecordReads(t, t1, rows[i], o);
    }
  }

  /** After loading a document, a set has an ArmorSets row exactly when it
      had one before or one of its rows got to its upsert. */
  lemma {:induction false} LoadSetsKeys(t: Tables, rows: seq<SetRow>, o: Orders)
    decreases |rows|
    ensures forall k :: k in LoadSets(t, rows, o).armorSets <==>
      k in t.armorSets || exists j :: 0 <= j < |rows| && rows[j].key == k && Started(rows[j].fault)
  {
    if rows != [] {
      var t1 := SetStep(t, rows[0], o);
      SetStepLocal(t, rows[0], o);
      LoadSetsKeys(t1, rows[1..], o);
      var u := LoadSets(t, rows, o);
      assert u == LoadSets(t1, rows[1..], o);
      forall k | k in u.armorSets
        ensures k in t.armorSets || exists j :: 0 <= j < |rows| && rows[j].key == k && Started(rows[j].fault)
      {
        if k !in t1.armorSets {
          var j :| 0 <= j < |rows[1..]| && rows[1..][j].key == k && Started(rows[1..][j].fault);
          assert rows[j + 1] == rows[1..][j];
        }
      }
      forall k | exists j :: 0 <= j < |rows| && rows[j].key == k && Started(rows[j].fault)
        ensures k in u.armorSets
      {
        var j :| 0 <= j < |rows| && rows[j].key == k && Started(rows[j].fault);
        if j == 0 {
          assert k in t1.armorSets;
        } else {
          assert rows[1..][j - 1] == rows[j];
          assert exists j' :: 0 <= j' < |rows[1..]| && rows[1..][j'].key == k && Started(rows[1..][j'].fault);
        }
      }
    }
  }

  /** The member items of a set row that the store holds. */
  function MembersHeld(t: Tables, row: SetRow): set<string> {
    set k | k in row.items && k != "" && k in t.items
  }

  /** The derived name: "Unknown Armor" when no member item the store holds
      has a name; otherwise some name plus " Armor" whose words, unless it is
      the "Unknown" fallback, are words of every named member item. */
  lemma SetNameOfMembers(t: Tables, row: SetRow, o: Orders)
    requires ValidOrders(o)
    ensures var r := SetRecordOf(t, row, o);
      && ((forall k :: k in MembersHeld(t, row) ==> t.items[k].name == "") ==> r.name == "Unknown Armor")
      && exists c :: r.name == c + " Armor" &&
           (c == "Unknown" ||
            forall w, k :: w in Words(c) && k in MembersHeld(t, row) && t.items[k].name != "" ==> w in Words(t.items[k].name))
  {
    var keys := NonEmpty(row.items);
    var rs := MemberRows(t, keys, o);
    var names := NamesOf(rs);
    CommonWordsSpec(names);
    CommonNameSpec(names);
    var c := CommonName(names);
    if keys != [] {
      var listed := o.members(set k | k in keys && k in t.items);
      assert Enumerates(listed, set k | k in keys && k in t.items);
      forall k | k in MembersHeld(t, row) && t.items[k].name != ""
        ensures t.items[k].name in names
      {
        assert k in listed;
        assert t.items[k] in rs;
      }
      if names != [] {
        assert names[0] in names;
        var rec :| rec in rs && rec.name == names[0];
        var k :| k in listed && k in t.items && t.items[k] == rec;
        assert k in MembersHeld(t, row) && t.items[k].name != "";
      }
      forall w, k | w in Words(c) && k in MembersHeld(t, row) && t.items[k].name != "" && CommonWords(names) != []
        ensures w in Words(t.items[k].name)
      {
        var i :| 0 <= i < |names| && names[i] == t.items[k].name;
      }
    }
    assert SetRecordOf(t, row, o).name == c + " Armor";
  }

  /** The set's tier: -1 when no member item the store holds has a truthy
      tier (NULL and 0 are not, -1 is); otherwise one of those tiers, and
      exactly `x` when they all equal `x`. */
  lemma SetTierOfMembers(t: Tables, row: SetRow, o: Orders)
    requires ValidOrders(o)
    ensures var r := SetRecordOf(t, row, o);
      var truthy := set k | k in MembersHeld(t, row) && t.items[k].tier.Some? && t.items[k].tier.value != 0 :: t.items[k].tier.value;
      && (truthy == {} ==> r.tier == -1)
      && (truthy != {} ==> r.tier in truthy)
      && (forall x :: truthy == {x} ==> r.tier == x)
  {
    var keys := NonEmpty(row.items);
    var rs := MemberRows(t, keys, o);
    var tiers := TiersOf(rs);
    var truthy := set k | k in MembersHeld(t, row) && t.items[k].tier.Some? && t.items[k].tier.value != 0 :: t.items[k].tier.value;
    assert TruthyTiers(tiers) == truthy by {
      if keys != [] {
        var listed := o.members(set k | k in keys && k in t.items);
        assert Enumerates(listed, set k | k in keys && k in t.items);
        forall x | x in TruthyTiers(tiers) ensures x in truthy {
          var tier :| tier in tiers && tier.Some? && tier.value != 0 && tier.value == x;
          var i :| 0 <= i < |tiers| && tiers[i] == tier;
          assert rs[i] in rs;
          var k :| k in listed && k in t.items && t.items[k] == rs[i];
        }
        forall x | x in truthy ensures x in TruthyTiers(tiers) {
          var k :| k in MembersHeld(t, row) && t.items[k].tier.Some? && t.items[k].tier.value != 0 && t.items[k].tier.value == x;
          assert k in listed;
          assert t.items[k] in rs;
          var i :| 0 <= i < |rs| && rs[i] == t.items[k];
          assert tiers[i] in tiers;
        }
      }
    }
    SetTierSpec(tiers, o.tiers(TruthyTiers(tiers)));
  }

  /** The class of the member effects is "" exactly when none of the
      members' effect rows names an armor class. */
  lemma ClassOfEffectsEmpty(t: Tables, keys: seq<string>, o: Orders)
    requires ValidOrders(o)
    ensures ClassOf(MemberEffects(t, keys, o)) == "" <==>
      forall p :: p in t.itemEffects && p.0 in keys ==> p.1 !in ArmorClasses
  {
    if keys != [] {
      var wanted := set p | p in t.itemEffects && p.0 in keys;
      var ps := o.memberEffects(wanted);
      assert Enumerates(ps, wanted);
      var es := EffectKeysOf(ps);
      if forall p :: p in t.itemEffects && p.0 in keys ==> p.1 !in ArmorClasses {
        forall i | 0 <= i < |es| ensures es[i] !in ArmorClasses {
          assert ps[i] in wanted;
        }
      } else {
        var p :| p in t.itemEffects && p.0 in keys && p.1 in ArmorClasses;
        assert p in wanted;
        var i :| 0 <= i < |ps| && ps[i] == p;
        assert es[i] in ArmorClasses;
      }
    }
  }

  /** The class of the member effects is that of the first effect row, in
      query order, that names an armor class. */
  lemma ClassOfEffectsFirst(t: Tables, keys: seq<string>, o: Orders)
    requires keys != []
    ensures var ps := o.memberEffects(set p | p in t.itemEffects && p.0 in keys);
      forall i ::
        (0 <= i < |ps| && ps[i].1 in ArmorClasses && forall j :: 0 <= j < i ==> ps[j].1 !in ArmorClasses) ==>
        ClassOf(MemberEffects(t, keys, o)) == ArmorClasses[ps[i].1]
  {
    var ps := o.memberEffects(set p | p in t.itemEffects && p.0 in keys);
    var es := EffectKeysOf(ps);
    assert MemberEffects(t, keys, o) == es;
    forall i | 0 <= i < |ps| && ps[i].1 in ArmorClasses && (forall j :: 0 <= j < i ==> ps[j].1 !in ArmorClasses)
      ensures ClassOf(es) == ArmorClasses[ps[i].1]
    {
      ClassOfFirst(es, i);
    }
  }

  /** The set's class: one of "", Rogue, Fighter, Ranger and Mage; "" exactly
      when no effect row, visible or hidden, of a listed member item names an
      armor class; otherwise the class of the first such row in query order. */
  lemma SetClassOfMembers(t: Tables, row: SetRow, o: Orders)
    requires ValidOrders(o)
    ensures var r := SetRecordOf(t, row, o);
      var ps := o.memberEffects(set p | p in t.itemEffects && p.0 in NonEmpty(row.items));
      && r.armorClass in {"", "Rogue", "Fighter", "Ranger", "Mage"}
      && (r.armorClass == "" <==>
            forall p :: p in t.itemEffects && p.0 in row.items && p.0 != "" ==> p.1 !in ArmorClasses)
      && (row.items != [] ==> forall i ::
            (0 <= i < |ps| && ps[i].1 in ArmorClasses && forall j :: 0 <= j < i ==> ps[j].1 !in ArmorClasses) ==>
            r.armorClass == ArmorClasses[ps[i].1])
  {
    var keys := NonEmpty(row.items);
    assert SetRecordOf(t, row, o).armorClass == ClassOf(MemberEffects(t, keys, o));
    ClassOfEffectsEmpty(t, keys, o);
    if keys != [] {
      ClassOfEffectsFirst(t, keys, o);
    } else {
      var wanted := set p | p in t.itemEffects && p.0 in keys;
      assert wanted == {};
      var ps := o.memberEffects(wanted);
      assert Enumerates(ps, wanted);
      assert forall i :: 0 <= i < |ps| ==> ps[i] in wanted;
    }
  }
}
