/** The reference resolver (scripts/5_update_database.py, lines 19-26 and
    51-82): localized display text and public media paths. Both are lookups
    that never fail; a miss gives the empty string. */
module Resolver {
  import opened Common

  /** One entry of a string table: `{"Key": …, "Value": {"DefaultText": …}}`. */
  datatype LocEntry = LocEntry(key: string, defaultText: string)

  /** One string table: `{"Key": …, "Value": {"Entries": [...]}}`. */
  datatype StringTable = StringTable(key: string, entries: seq<LocEntry>)

  /** The localization index loaded once per run (the list under
      `Properties.StringTables`); the empty list stands for a file that failed
      to load. It is passed explicitly instead of living in a module global. */
  type Localization = seq<StringTable>

  /** A row's reference to localized text, the object
      `{"StringTableID": …, "StringID": …}`; an absent object is the empty map. */
  type TextRef = map<string, int>

  /** STR_TABLES_BY_ID. */
  const StrTablesById: map<int, string> :=
    map[1 := "game/gui", 2 := "game/items", 9 := "game/characters",
        33 := "game/statuseffects", 195 := "game/perks"]

  /** `STR_TABLES_BY_ID.get(index, "unknown")`. */
  function TableName(index: int): string {
    if index in StrTablesById then StrTablesById[index] else "unknown"
  }

  function DigitChar(d: nat): (c: char)
    requires d < 10
    ensures '0' <= c <= '9' && c as int - '0' as int == d
  {
    "0123456789"[d]
  }

  /** The decimal digits of `n`, most significant first. */
  function Digits(n: nat): (r: string)
    ensures |r| > 0 && forall i :: 0 <= i < |r| ==> '0' <= r[i] <= '9'
  {
    if n < 10 then [DigitChar(n)] else Digits(n / 10) + [DigitChar(n % 10)]
  }

  /** Python's `str(n)` for an integer. */
  function DecimalString(n: int): (r: string)
    ensures |r| > 0
  {
    if n < 0 then "-" + Digits(-n) else Digits(n)
  }

  /** The number a string of decimal digits stands for. */
  function DigitsValue(s: string): nat
    requires forall i :: 0 <= i < |s| ==> '0' <= s[i] <= '9'
  {
    if s == [] then 0
    else DigitsValue(s[..|s| - 1]) * 10 + (s[|s| - 1] as int - '0' as int)
  }

  /** `Digits(n)` is the decimal form of `n`: it stands for `n`, and it has no
      leading zero. */
  lemma {:induction false} DigitsRoundTrip(n: nat)
    ensures DigitsValue(Digits(n)) == n
    ensures n >= 10 ==> Digits(n)[0] != '0'
  {
    if n >= 10 {
      var hi := Digits(n / 10);
      DigitsRoundTrip(n / 10);
      assert Digits(n) == hi + [DigitChar(n % 10)];
      assert Digits(n)[..|Digits(n)| - 1] == hi;
      assert Digits(n)[0] == hi[0];
      if n / 10 < 10 {
        assert hi == [DigitChar(n / 10)];
      }
    }
  }

  /** `str` is one-to-one on integers: two StringIDs give the same entry key
      only when they are the same number (line 58 against line 63). */
  lemma DecimalStringInjective(a: int, b: int)
    ensures DecimalString(a) == DecimalString(b) <==> a == b
  {
    if DecimalString(a) == DecimalString(b) {
      SignOfDecimal(a);
      SignOfDecimal(b);
      if a < 0 && b < 0 {
        assert Digits(-a) == DecimalString(a)[1..];
        assert Digits(-b) == DecimalString(b)[1..];
        DigitsInjective(-a, -b);
      } else if a >= 0 && b >= 0 {
        DigitsInjective(a, b);
      }
    }
  }

  /** Distinct natural numbers have distinct decimal forms. */
  lemma DigitsInjective(x: nat, y: nat)
    ensures Digits(x) == Digits(y) <==> x == y
  {
    DigitsRoundTrip(x);
    DigitsRoundTrip(y);
  }

  /** The string of an integer starts with a minus sign exactly when the
      integer is negative. */
  lemma SignOfDecimal(n: int)
    ensures DecimalString(n)[0] == '-' <==> n < 0
  {
    if n >= 0 {
      assert '0' <= Digits(n)[0] <= '9';
    }
  }

  /** The default text of the first entry keyed `stringId`. */
  function FindEntry(entries: seq<LocEntry>, stringId: string): Option<string> {
    if entries == [] then None
    else if entries[0].key == stringId then Some(entries[0].defaultText)
    else FindEntry(entries[1..], stringId)
  }

  /** The search of lines 60-64: tables keyed `tableId` in order, and inside
      each its entries in order, until an entry keyed `stringId` is found. */
  function Find(tables: Localization, tableId: string, stringId: string): Option<string> {
    if tables == [] then None
    else if tables[0].key == tableId && FindEntry(tables[0].entries, stringId).Some? then
      FindEntry(tables[0].entries, stringId)
    else Find(tables[1..], tableId, stringId)
  }

  /** Entry `j` of table `i` is one the search is looking for. */
  ghost predicate Hit(tables: Localization, tableId: string, stringId: string, i: int, j: int) {
    && 0 <= i < |tables| && tables[i].key == tableId
    && 0 <= j < |tables[i].entries| && tables[i].entries[j].key == stringId
  }

  lemma {:induction false} FindEntryFirst(entries: seq<LocEntry>, stringId: string)
    ensures FindEntry(entries, stringId).None? <==>
      forall j :: 0 <= j < |entries| ==> entries[j].key != stringId
    ensures FindEntry(entries, stringId).Some? ==>
      exists j :: 0 <= j < |entries| && entries[j].key == stringId &&
        FindEntry(entries, stringId).value == entries[j].defaultText &&
        forall j' :: 0 <= j' < j ==> entries[j'].key != stringId
  {
    if entries != [] && entries[0].key != stringId {
      FindEntryFirst(entries[1..], stringId);
      if FindEntry(entries, stringId).Some? {
        var j :| 0 <= j < |entries| - 1 && entries[1..][j].key == stringId &&
          FindEntry(entries, stringId).value == entries[1..][j].defaultText &&
          forall j' :: 0 <= j' < j ==> entries[1..][j'].key != stringId;
        assert entries[j + 1].key == stringId;
        forall j' | 0 <= j' < j + 1 ensures entries[j'].key != stringId {
          if j' > 0 { assert entries[j'] == entries[1..][j' - 1]; }
        }
      } else {
        forall j | 0 <= j < |entries| ensures entries[j].key != stringId {
          if j > 0 { assert entries[j] == entries[1..][j - 1]; }
        }
      }
    }
  }

  /** The search finds nothing exactly when no table keyed `tableId` has an
      entry keyed `stringId`; otherwise it yields the default text of the
      first such entry, tables taken in order and entries in order. */
  lemma {:induction false} FindFirst(tables: Localization, tableId: string, stringId: string)
    ensures Find(tables, tableId, stringId).None? <==>
      forall i, j :: !Hit(tables, tableId, stringId, i, j)
    ensures Find(tables, tableId, stringId).Some? ==>
      exists i, j :: Hit(tables, tableId, stringId, i, j) &&
        Find(tables, tableId, stringId).value == tables[i].entries[j].defaultText &&
        forall i', j' :: Hit(tables, tableId, stringId, i', j') ==> i < i' || (i == i' && j <= j')
  {
    if tables == [] {
      return;
    }
    FindEntryFirst(tables[0].entries, stringId);
    FindFirst(tables[1..], tableId, stringId);
    var rest := tables[1..];
    forall i, j | Hit(rest, tableId, stringId, i, j)
      ensures Hit(tables, tableId, stringId, i + 1, j)
    {
      assert tables[i + 1] == rest[i];
    }
    forall i, j | Hit(tables, tableId, stringId, i, j) && i > 0
      ensures Hit(rest, tableId, stringId, i - 1, j)
    {
      assert tables[i] == rest[i - 1];
    }
    if tables[0].key == tableId && FindEntry(tables[0].entries, stringId).Some? {
      var j :| 0 <= j < |tables[0].entries| && tables[0].entries[j].key == stringId &&
        FindEntry(tables[0].entries, stringId).value == tables[0].entries[j].defaultText &&
        forall j' :: 0 <= j' < j ==> tables[0].entries[j'].key != stringId;
      assert Hit(tables, tableId, stringId, 0, j);
    } else if Find(tables, tableId, stringId).Some? {
      var i, j :| Hit(rest, tableId, stringId, i, j) &&
        Find(rest, tableId, stringId).value == rest[i].entries[j].defaultText &&
        forall i', j' :: Hit(rest, tableId, stringId, i', j') ==> i < i' || (i == i' && j <= j');
      assert Hit(tables, tableId, stringId, i + 1, j);
    }
  }

  /** `get_localized_string` (lines 51-65) as a value. */
  function LocalizedText(loc: Localization, ref: TextRef): string {
    if |loc| == 0 || |ref| == 0 then ""
    else
      var tableIndex := if "StringTableID" in ref then ref["StringTableID"] else -1;
      var stringId := DecimalString(if "StringID" in ref then ref["StringID"] else -1);
      Find(loc, TableName(tableIndex), stringId).GetOr("")
  }

  /** The contract of `get_localized_string`: the empty string without a
      localization index or without a reference; an unmapped or absent table
      number searches the tables keyed "unknown"; otherwise the text of the
      first matching entry, and the empty string when nothing matches. */
  lemma LocalizedTextSpec(loc: Localization, ref: TextRef)
    ensures |loc| == 0 || |ref| == 0 ==> LocalizedText(loc, ref) == ""
    ensures |loc| > 0 && |ref| > 0 ==>
      var tableId := if "StringTableID" in ref && ref["StringTableID"] in StrTablesById
        then StrTablesById[ref["StringTableID"]] else "unknown";
      var stringId := DecimalString(if "StringID" in ref then ref["StringID"] else -1);
      && ((forall i, j :: !Hit(loc, tableId, stringId, i, j)) ==> LocalizedText(loc, ref) == "")
      && (forall i, j ::
            (Hit(loc, tableId, stringId, i, j) &&
             forall i', j' :: Hit(loc, tableId, stringId, i', j') ==> i < i' || (i == i' && j <= j')) ==>
            LocalizedText(loc, ref) == loc[i].entries[j].defaultText)
  {
    if |loc| > 0 && |ref| > 0 {
      var tableId := if "StringTableID" in ref && ref["StringTableID"] in StrTablesById
        then StrTablesById[ref["StringTableID"]] else "unknown";
      var stringId := DecimalString(if "StringID" in ref then ref["StringID"] else -1);
      FindFirst(loc, tableId, stringId);
    }
  }

  /** `get_localized_string`: the nested search loop with early return. */
  method GetLocalizedString(loc: Localization, ref: TextRef) returns (text: string)
    ensures text == LocalizedText(loc, ref)
  {
    if |loc| == 0 || |ref| == 0 {
      return "";
    }
    var tableIndex := if "StringTableID" in ref then ref["StringTableID"] else -1;
    var tableId := TableName(tableIndex);
    var stringId := DecimalString(if "StringID" in ref then ref["StringID"] else -1);
    var i := 0;
    while i < |loc|
      invariant 0 <= i <= |loc|
      invariant Find(loc, tableId, stringId) == Find(loc[i..], tableId, stringId)
    {
      assert loc[i..][1..] == loc[i + 1..];
      if loc[i].key == tableId {
        var entries := loc[i].entries;
        var j := 0;
        while j < |entries|
          invariant 0 <= j <= |entries|
          invariant FindEntry(entries, stringId) == FindEntry(entries[j..], stringId)
        {
          assert entries[j..][1..] == entries[j + 1..];
          if entries[j].key == stringId {
            assert FindEntry(entries, stringId) == Some(entries[j].defaultText);
            assert Find(loc[i..], tableId, stringId) == FindEntry(entries, stringId);
            return entries[j].defaultText;
          }
          j := j + 1;
        }
        assert entries[j..] == [];
        assert FindEntry(entries, stringId).None?;
      }
      assert Find(loc[i..], tableId, stringId) == Find(loc[i + 1..], tableId, stringId);
      i := i + 1;
    }
    return "";
  }

  /** WEB_MEDIA_ROOT and the two recognised content roots. */
  const MediaRoot := "/media/"
  const GameMarker := "/Game/"
  const AugustaMarker := "/Augusta/Content/"

  /** `build_web_asset_path` (lines 67-82). */
  function WebAssetPath(asset: string, image: bool): string {
    if |asset| == 0 || !image then ""
    else if Contains(asset, GameMarker) then ReplaceChar(MediaRoot + LastPiece(asset, GameMarker), '\\', '/')
    else if Contains(asset, AugustaMarker) then ReplaceChar(MediaRoot + LastPiece(asset, AugustaMarker), '\\', '/')
    else ""
  }

  /** "/media/" followed by the last piece after `marker`, backslashes turned
      into slashes. */
  lemma MediaPathShape(asset: string, marker: string)
    requires |marker| > 0 && Contains(asset, marker)
    ensures var tail := LastPiece(asset, marker);
      var r := ReplaceChar(MediaRoot + tail, '\\', '/');
      && |r| == |MediaRoot| + |tail|
      && (forall i :: 0 <= i < |r| ==> r[i] != '\\')
      && r[..|MediaRoot|] == MediaRoot
      && EndsWith(asset, tail) && FollowsSep(asset, marker, tail) && !Contains(tail, marker)
      && forall i :: 0 <= i < |tail| ==> r[|MediaRoot| + i] == (if tail[i] == '\\' then '/' else tail[i])
  {
    LastPieceSuffix(asset, marker);
    LastPieceAfterSep(asset, marker);
    var tail := LastPiece(asset, marker);
    var s := MediaRoot + tail;
    var r := ReplaceChar(s, '\\', '/');
    assert r[..|MediaRoot|] == MediaRoot by {
      forall i | 0 <= i < |MediaRoot| ensures r[i] == MediaRoot[i] {
        assert s[i] == MediaRoot[i];
      }
    }
    forall i | 0 <= i < |tail| ensures r[|MediaRoot| + i] == (if tail[i] == '\\' then '/' else tail[i]) {
      assert s[|MediaRoot| + i] == tail[i];
    }
  }

  /** The contract of `build_web_asset_path`: empty for an empty asset, a
      non-image or an asset without a recognised root; otherwise "/media/"
      followed by a suffix of the asset that comes right after a root marker
      ("/Game/" is preferred to "/Augusta/Content/") and holds no further
      marker, with every backslash turned into a slash. */
  lemma WebAssetPathSpec(asset: string, image: bool)
    ensures var r := WebAssetPath(asset, image);
      && (r == "" <==>
            (|asset| == 0 || !image || (!Contains(asset, GameMarker) && !Contains(asset, AugustaMarker))))
      && (forall i :: 0 <= i < |r| ==> r[i] != '\\')
      && (r != "" ==>
            var marker := if Contains(asset, GameMarker) then GameMarker else AugustaMarker;
            var tail := LastPiece(asset, marker);
            && |r| == |MediaRoot| + |tail| && r[..|MediaRoot|] == MediaRoot
            && EndsWith(asset, tail) && FollowsSep(asset, marker, tail) && !Contains(tail, marker)
            && forall i :: 0 <= i < |tail| ==> r[|MediaRoot| + i] == (if tail[i] == '\\' then '/' else tail[i]))
  {
    if |asset| > 0 && image {
      if Contains(asset, GameMarker) {
        MediaPathShape(asset, GameMarker);
      } else if Contains(asset, AugustaMarker) {
        MediaPathShape(asset, AugustaMarker);
      }
    }
  }
}
