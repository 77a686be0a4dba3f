/** The set derivation engine's computations (scripts/5_update_database.py,
    lines 28-33 and 187-211): an armor set's name, tier and class, derived
    from what the store already holds about its member items. */
module Derivation {
  import opened Common

  /** The characters Python's `str.split()` splits on. */
  predicate IsSpace(c: char) {
    || c == ' ' || c == '\t' || c == '\n' || c == '\r' || c == '\U{B}' || c == '\U{C}'
    || '\U{1C}' <= c <= '\U{1F}' || c == '\U{85}' || c == '\U{A0}' || c == '\U{1680}'
    || '\U{2000}' <= c <= '\U{200A}' || c == '\U{2028}' || c == '\U{2029}'
    || c == '\U{202F}' || c == '\U{205F}' || c == '\U{3000}'
  }

  /** A word as `split()` yields it: not empty, no whitespace. */
  predicate IsWord(w: string) {
    |w| > 0 && forall i :: 0 <= i < |w| ==> !IsSpace(w[i])
  }

  /** The end of the word that starts at `i`. */
  function WordEnd(s: string, i: nat): (n: nat)
    requires i <= |s|
    decreases |s| - i
    ensures i <= n <= |s|
    ensures forall k :: i <= k < n ==> !IsSpace(s[k])
    ensures n < |s| ==> IsSpace(s[n])
  {
    if i == |s| || IsSpace(s[i]) then i else WordEnd(s, i + 1)
  }

  /** Python's `s.split()`: the maximal runs of non-whitespace, in order. */
  function Words(s: string): (ws: seq<string>)
    decreases |s|
    ensures forall k :: 0 <= k < |ws| ==> IsWord(ws[k])
  {
    if s == [] then []
    else if IsSpace(s[0]) then Words(s[1..])
    else
      var n := WordEnd(s, 0);
      [s[..n]] + Words(s[n..])
  }

  /** Python's `sep.join(ws)`. */
  function Join(ws: seq<string>, sep: string): string {
    if ws == [] then ""
    else if |ws| == 1 then ws[0]
    else ws[0] + sep + Join(ws[1..], sep)
  }

  /** `w` is a word of every name in `others`. */
  predicate InAll(w: string, others: seq<string>) {
    forall i :: 0 <= i < |others| ==> w in Words(others[i])
  }

  /** The comprehension of line 192: the words of `ws`, in order, that are
      words of every name in `others`. */
  function KeepShared(ws: seq<string>, others: seq<string>): seq<string> {
    if ws == [] then []
    else (if InAll(ws[0], others) then [ws[0]] else []) + KeepShared(ws[1..], others)
  }

  /** Lines 188-192: the words of the first name that every other name shares. */
  function CommonWords(names: seq<string>): seq<string> {
    if names == [] then [] else KeepShared(Words(names[0]), names[1..])
  }

  /** Line 193: the common words joined by spaces, "Unknown" when there are none. */
  function CommonName(names: seq<string>): string {
    var common := CommonWords(names);
    if common == [] then "Unknown" else Join(common, " ")
  }

  /** Line 217: the stored name of the set. */
  function SetName(names: seq<string>): string {
    CommonName(names) + " Armor"
  }

  /** `a` can be obtained from `b` by deleting elements. */
  ghost predicate SubsequenceOf<T>(a: seq<T>, b: seq<T>)
    decreases |b|
  {
    if a == [] then true
    else if b == [] then false
    else if a[0] == b[0] then SubsequenceOf(a[1..], b[1..])
    else SubsequenceOf(a, b[1..])
  }

  lemma {:induction false} KeepSharedSpec(ws: seq<string>, others: seq<string>)
    ensures forall w :: w in KeepShared(ws, others) <==> w in ws && InAll(w, others)
    ensures SubsequenceOf(KeepShared(ws, others), ws)
  {
    if ws != [] {
      KeepSharedSpec(ws[1..], others);
      var rest := KeepShared(ws[1..], others);
      if InAll(ws[0], others) {
        assert ([ws[0]] + rest)[1..] == rest;
      } else {
        assert KeepShared(ws, others) == rest;
        if rest != [] {
          assert rest[0] in ws[1..];
        }
        SubsequenceSkip(rest, ws);
      }
    }
  }

  /** Dropping the head of `b` keeps a subsequence of its tail one of `b`. */
  lemma {:induction false} SubsequenceSkip<T>(a: seq<T>, b: seq<T>)
    requires b != [] && SubsequenceOf(a, b[1..])
    decreases |b|, 0
    ensures SubsequenceOf(a, b)
  {
    if a != [] && a[0] == b[0] {
      SubsequenceDropHead(a, b[1..]);
    }
  }

  /** Dropping the head of a subsequence keeps a subsequence. */
  lemma {:induction false} SubsequenceDropHead<T>(a: seq<T>, b: seq<T>)
    requires a != [] && SubsequenceOf(a, b)
    decreases |b|, 1
    ensures SubsequenceOf(a[1..], b)
  {
    if a[0] == b[0] {
      SubsequenceSkip(a[1..], b);
    } else {
      SubsequenceDropHead(a, b[1..]);
      SubsequenceSkip(a[1..], b);
    }
  }

  /** The common words (line 192): exactly the words of the first name that
      occur among the words of every name, kept in the first name's order;
      none without names. */
  lemma CommonWordsSpec(names: seq<string>)
    ensures names == [] ==> CommonWords(names) == []
    ensures names != [] ==>
      && SubsequenceOf(CommonWords(names), Words(names[0]))
      && forall w :: w in CommonWords(names) <==>
           forall i :: 0 <= i < |names| ==> w in Words(names[i])
  {
    if names != [] {
      KeepSharedSpec(Words(names[0]), names[1..]);
      forall w ensures InAll(w, names[1..]) && w in Words(names[0]) <==>
        forall i :: 0 <= i < |names| ==> w in Words(names[i])
      {
        if forall i :: 0 <= i < |names| ==> w in Words(names[i]) {
          forall i | 0 <= i < |names| - 1 ensures w in Words(names[1..][i]) {
            assert names[1..][i] == names[i + 1];
          }
        }
        if InAll(w, names[1..]) && w in Words(names[0]) {
          forall i | 0 < i < |names| ensures w in Words(names[i]) {
            assert names[i] == names[1..][i - 1];
          }
        }
      }
    }
  }

  /** Splitting a word followed by whitespace and more text. */
  lemma WordsOfWordThenSpace(w: string, c: char, rest: string)
    requires IsWord(w) && IsSpace(c)
    ensures Words(w + [c] + rest) == [w] + Words(rest)
  {
    var s := w + [c] + rest;
    assert WordEnd(s, 0) == |w| by {
      WordEndAt(s, 0, |w|);
    }
    assert !IsSpace(s[0]);
    assert s[..|w|] == w;
    assert s[|w|..] == [c] + rest;
    assert ([c] + rest)[1..] == rest;
  }

  lemma {:induction false} WordEndAt(s: string, i: nat, n: nat)
    requires i <= n < |s| && IsSpace(s[n])
    requires forall k :: i <= k < n ==> !IsSpace(s[k])
    decreases n - i
    ensures WordEnd(s, i) == n
  {
    if i < n {
      WordEndAt(s, i + 1, n);
    }
  }

  /** `split()` cuts at every whitespace character: the words on either
      side of one are the words of the whole. With `WordsOfWord` and
      `Words("") == []` this pins `Words` down on every string. */
  lemma {:induction false} WordsSplitAt(a: string, c: char, b: string)
    requires IsSpace(c)
    decreases |a|
    ensures Words(a + [c] + b) == Words(a) + Words(b)
  {
    var s := a + [c] + b;
    if a == [] {
      assert s == [c] + b && s[1..] == b;
    } else if IsSpace(a[0]) {
      assert s[1..] == a[1..] + [c] + b;
      WordsSplitAt(a[1..], c, b);
    } else {
      var m := WordEnd(a, 0);
      assert m > 0;
      assert forall k :: 0 <= k < m ==> s[k] == a[k];
      WordEndAt(s, 0, m);
      assert s[..m] == a[..m];
      assert s[m..] == a[m..] + [c] + b;
      WordsSplitAt(a[m..], c, b);
    }
  }

  lemma {:induction false} WordsOfWord(w: string)
    requires IsWord(w)
    ensures Words(w) == [w]
  {
    assert !IsSpace(w[0]);
    assert w[..|w|] == w;
    assert w[|w|..] == [];
  }

  /** Joining words by a space and splitting again gives the words back. */
  lemma {:induction false} WordsOfJoin(ws: seq<string>)
    requires forall k :: 0 <= k < |ws| ==> IsWord(ws[k])
    ensures Words(Join(ws, " ")) == ws
  {
    if |ws| == 1 {
      WordsOfWord(ws[0]);
    } else if |ws| > 1 {
      WordsOfJoin(ws[1..]);
      WordsOfWordThenSpace(ws[0], ' ', Join(ws[1..], " "));
      assert ws[0] + " " + Join(ws[1..], " ") == ws[0] + [' '] + Join(ws[1..], " ");
    }
  }

  /** The derived name (lines 188-193): "Unknown" when there are no names or
      no common words; otherwise its words are the common words, so each of
      them is a word of every member name. */
  lemma CommonNameSpec(names: seq<string>)
    ensures CommonWords(names) == [] ==> CommonName(names) == "Unknown"
    ensures CommonWords(names) != [] ==>
      && Words(CommonName(names)) == CommonWords(names)
      && forall w, i :: w in Words(CommonName(names)) && 0 <= i < |names| ==> w in Words(names[i])
  {
    var common := CommonWords(names);
    CommonWordsSpec(names);
    if common != [] {
      assert names != [];
      KeepSharedSpec(Words(names[0]), names[1..]);
      forall k | 0 <= k < |common| ensures IsWord(common[k]) {
        assert common[k] in Words(names[0]);
      }
      WordsOfJoin(common);
    }
  }

  /** The truthy tiers of line 196: NULL and 0 are left out, -1 is not. */
  function TruthyTiers(tiers: seq<Option<int>>): set<int> {
    set t | t in tiers && t.Some? && t.value != 0 :: t.value
  }

  /** Line 197: the first element of the deduplicated truthy tiers as listed
      (`listed` is `list(set(...))`, in an order the model does not fix). */
  function SetTier(listed: seq<int>): int {
    if listed == [] then -1 else listed[0]
  }

  /** The set's tier: -1 when no member has a truthy tier; otherwise one of
      the members' truthy tiers, and exactly `t` when every truthy tier is `t`. */
  lemma SetTierSpec(tiers: seq<Option<int>>, listed: seq<int>)
    requires Enumerates(listed, TruthyTiers(tiers))
    ensures TruthyTiers(tiers) == {} ==> SetTier(listed) == -1
    ensures TruthyTiers(tiers) != {} ==> SetTier(listed) in TruthyTiers(tiers)
    ensures forall t :: TruthyTiers(tiers) == {t} ==> SetTier(listed) == t
  {
    if listed != [] {
      assert listed[0] in listed;
    }
    if TruthyTiers(tiers) != {} {
      var t :| t in TruthyTiers(tiers);
      assert t in listed;
    }
  }

  /** ARMOR_CLASSES. */
  const ArmorClasses: map<string, string> :=
    map["RogueFinisherCriticals" := "Rogue", "FighterMajorThreat" := "Fighter",
        "RangerWeakPointDamage" := "Ranger", "MageStaffStaminaReduction" := "Mage"]

  /** Lines 200-211: the class of the first effect that has one; "" if none. */
  function ClassOf(effects: seq<string>): (c: string)
    ensures c in {"", "Rogue", "Fighter", "Ranger", "Mage"}
    ensures c == "" <==> forall i :: 0 <= i < |effects| ==> effects[i] !in ArmorClasses
  {
    if effects == [] then ""
    else if effects[0] in ArmorClasses then ArmorClasses[effects[0]]
    else ClassOf(effects[1..])
  }

  /** The class is that of the first effect, in query order, that has one. */
  lemma {:induction false} ClassOfFirst(effects: seq<string>, i: nat)
    requires i < |effects| && effects[i] in ArmorClasses
    requires forall k :: 0 <= k < i ==> effects[k] !in ArmorClasses
    ensures ClassOf(effects) == ArmorClasses[effects[i]]
  {
    if i > 0 {
      ClassOfFirst(effects[1..], i - 1);
    }
  }

  /** The search loop of lines 208-211, leaving at the first effect that
      names a class. */
  method FindClass(effects: seq<string>) returns (c: string)
    ensures c == ClassOf(effects)
    ensures c == "" <==> forall i :: 0 <= i < |effects| ==> effects[i] !in ArmorClasses
  {
    c := "";
    var k := 0;
    while k < |effects|
      invariant 0 <= k <= |effects|
      invariant ClassOf(effects) == ClassOf(effects[k..])
    {
      assert effects[k..][1..] == effects[k + 1..];
      if effects[k] in ArmorClasses {
        c := ArmorClasses[effects[k]];
        break;
      }
      k := k + 1;
    }
  }
}
