/** The town-keyed flat delivery fee of frontend/js/app.js
    (`DELIVERY_FEE_MAPPING` and `calculateDeliveryFee(townName)`): the name
    is lower-cased and trimmed, looked up in a fixed table, and anything
    missing or unknown costs the default 7.00 cedis. */
module TownFees {
  import opened Common
  import opened Text

  const DefaultFee: real := 7.0

  /** `DELIVERY_FEE_MAPPING`: town key to flat fee in cedis. */
  const FeeTable: map<string, real> := map[
    "hohoe" := 7.0, "dzodze" := 7.0, "anloga" := 7.0, "akpafu" := 20.0,
    "sanko" := 15.0, "likpe" := 20.0, "lolobi" := 20.0, "fodome" := 20.0,
    "wli" := 22.0, "ve" := 25.0, "alavanyo" := 20.0
  ]

  /** The key the name is looked up under: `townName.toLowerCase().trim()`. */
  function TownKey(name: string): (k: string)
    ensures |k| <= |name|
    ensures k == [] || (!IsWhitespace(k[0]) && !IsWhitespace(k[|k| - 1]))
    ensures forall i :: 0 <= i < |k| ==> !('A' <= k[i] <= 'Z')
  {
    TrimmedLowerHasNoCapitals(name);
    Trim(Lower(name))
  }

  lemma FeeTableBounds()
    ensures forall k :: k in FeeTable ==> 7.0 <= FeeTable[k] <= 25.0
  {
  }

  /** `calculateDeliveryFee(townName)`, looking up own table entries only
      (see `TownFeeAsWritten` for what the plain-object lookup also hits). */
  function TownFee(townName: Option<string>): (fee: real)
    ensures 7.0 <= fee <= 25.0
    ensures !Truthy(townName) ==> fee == DefaultFee
    ensures Truthy(townName) && TownKey(townName.value) !in FeeTable ==> fee == DefaultFee
    ensures Truthy(townName) && TownKey(townName.value) in FeeTable ==> fee == FeeTable[TownKey(townName.value)]
  {
    FeeTableBounds();
    if !Truthy(townName) then DefaultFee
    else
      var key := TownKey(townName.value);
      if key in FeeTable then FeeTable[key] else DefaultFee
  }

  /** Letter case does not change the fee. */
  lemma TownFeeIgnoresCase(a: string, b: string)
    requires Lower(a) == Lower(b)
    ensures TownFee(Some(a)) == TownFee(Some(b))
  {
  }

  lemma TownKeyIgnoresPadding(w1: string, name: string, w2: string)
    requires AllWhitespace(w1) && AllWhitespace(w2)
    ensures TownKey(w1 + name + w2) == TownKey(name)
  {
    LowerConcat(w1 + name, w2);
    LowerConcat(w1, name);
    LowerKeepsWhitespace(w1);
    LowerKeepsWhitespace(w2);
    TrimIgnoresPadding(w1, Lower(name), w2);
  }

  lemma EmptyKeyUnknown()
    ensures "" !in FeeTable
  {
  }

  /** Two non-empty names with the same key cost the same. */
  lemma SameKeySameFee(a: string, b: string)
    requires a != "" && b != "" && TownKey(a) == TownKey(b)
    ensures TownFee(Some(a)) == TownFee(Some(b))
  {
  }

  /** A name whose key is empty costs the default. */
  lemma EmptyKeyCostsDefault(a: string)
    requires TownKey(a) == ""
    ensures TownFee(Some(a)) == DefaultFee
  {
    EmptyKeyUnknown();
  }

  lemma PaddedEmptyNameFee(w1: string, w2: string)
    requires AllWhitespace(w1) && AllWhitespace(w2)
    ensures TownFee(Some(w1 + "" + w2)) == TownFee(Some(""))
  {
    TownKeyIgnoresPadding(w1, "", w2);
    assert TownKey("") == "";
    EmptyKeyCostsDefault(w1 + "" + w2);
  }

  lemma PaddedNameFee(w1: string, name: string, w2: string)
    requires AllWhitespace(w1) && AllWhitespace(w2) && name != ""
    ensures TownFee(Some(w1 + name + w2)) == TownFee(Some(name))
  {
    TownKeyIgnoresPadding(w1, name, w2);
    assert |w1 + name + w2| >= |name|;
    SameKeySameFee(w1 + name + w2, name);
  }

  /** Whitespace around the name does not change the fee. */
  lemma TownFeeIgnoresPadding(w1: string, name: string, w2: string)
    requires AllWhitespace(w1) && AllWhitespace(w2)
    ensures TownFee(Some(w1 + name + w2)) == TownFee(Some(name))
  {
    if name == "" {
      PaddedEmptyNameFee(w1, w2);
    } else {
      PaddedNameFee(w1, name, w2);
    }
  }

  /** An entry of `TOWNS`, the town picker's list. */
  datatype Town = Town(id: string, name: string)

  const Towns: seq<Town> := [
    Town("hohoe", "Hohoe"), Town("dzodze", "Dzodze"), Town("anloga", "Anloga"),
    Town("akpafu", "Akpafu"), Town("sanko", "Sanko"), Town("likpe", "Likpe"),
    Town("lolobi", "Lolobi"), Town("fodome", "Fodome"), Town("wli", "Wli"),
    Town("ve", "Ve"), Town("alavanyo", "Alavanyo")
  ]

  /** A name of lower-case letters is its own lookup key. */
  lemma LowerLettersAreKeys(s: string)
    requires s != []
    requires forall i :: 0 <= i < |s| ==> 'a' <= s[i] <= 'z'
    ensures TownKey(s) == s
  {
    LowerWithoutCapitals(s);
    TrimUnpadded(s);
  }

  /** Every town the picker offers is in the fee table under its id, so
      picking a town charges that town's fee rather than the default. */
  lemma PickedTownCharges()
    ensures forall t :: t in Towns ==> t.id in FeeTable && TownFee(Some(t.id)) == FeeTable[t.id]
  {
    forall t | t in Towns
      ensures t.id in FeeTable && TownFee(Some(t.id)) == FeeTable[t.id]
    {
      var i :| 0 <= i < |Towns| && Towns[i] == t;
      TownIdIsKey(i);
      KeyIsOwnFee(t.id);
    }
  }

  /** For every town the picker offers, the lookup as written already
      yields the number the own-key lookup gives. */
  lemma PickedTownAsWrittenAgrees()
    ensures forall t :: t in Towns ==> TownFeeAsWritten(Some(t.id)) == Number(TownFee(Some(t.id)))
  {
    forall t | t in Towns
      ensures TownFeeAsWritten(Some(t.id)) == Number(TownFee(Some(t.id)))
    {
      var i :| 0 <= i < |Towns| && Towns[i] == t;
      TownIdIsKey(i);
      PrototypeKeysNotInTable();
    }
  }

  lemma TownIdIsKey(i: int)
    requires 0 <= i < |Towns|
    ensures Towns[i].id != "" && Towns[i].id in FeeTable && TownKey(Towns[i].id) == Towns[i].id
  {
    LowerLettersAreKeys(Towns[i].id);
  }

  /** A table key that is its own lookup key costs its table entry. */
  lemma KeyIsOwnFee(k: string)
    requires k != "" && k in FeeTable && TownKey(k) == k
    ensures TownFee(Some(k)) == FeeTable[k]
  {
  }

  /** What `DELIVERY_FEE_MAPPING[townKey] || 7.00` evaluates to on a plain
      JavaScript object: a number, or a truthy member every object inherits
      from `Object.prototype`. */
  datatype LookupValue = Number(amount: real) | PrototypeMember(key: string)

  /** The inherited property names that are already lower-case, so a
      lower-cased key can reach them. */
  const PrototypeKeys: set<string> := {"constructor", "__proto__"}

  lemma PrototypeKeysNotInTable()
    ensures forall k :: k in PrototypeKeys ==> k !in FeeTable
  {
  }

  /** `calculateDeliveryFee` as written: the bracket lookup also finds the
      inherited members, which are truthy and so are returned in place of
      the default fee. */
  function TownFeeAsWritten(townName: Option<string>): (v: LookupValue)
    ensures Truthy(townName) && TownKey(townName.value) in PrototypeKeys ==> v == PrototypeMember(TownKey(townName.value))
    ensures !(Truthy(townName) && TownKey(townName.value) in PrototypeKeys) ==> v == Number(TownFee(townName))
  {
    PrototypeKeysNotInTable();
    if !Truthy(townName) then Number(DefaultFee)
    else
      var key := TownKey(townName.value);
      if key in FeeTable then Number(FeeTable[key])
      else if key in PrototypeKeys then PrototypeMember(key)
      else Number(DefaultFee)
  }

  lemma LowerConstructor()
    ensures Lower(" Constructor ") == " " + "constructor" + " "
  {
    LowerConcat(" C", "onstructor ");
    LowerConcat(" ", "C");
    LowerWithoutCapitals(" ");
    LowerWithoutCapitals("onstructor ");
    assert Lower("C") == "c";
    assert " Constructor " == " C" + "onstructor ";
    assert " C" == " " + "C";
  }

  lemma TrimPaddedKey(key: string)
    requires key != [] && !IsWhitespace(key[0]) && !IsWhitespace(key[|key| - 1])
    ensures Trim(" " + key + " ") == key
  {
    TrimIgnoresPadding(" ", key, " ");
    TrimUnpadded(key);
  }

  lemma ConstructorKey()
    ensures TownKey(" Constructor ") == "constructor"
  {
    LowerConstructor();
    var key := "constructor";
    assert key[0] == 'c' && key[|key| - 1] == 'r';
    TrimPaddedKey(key);
  }

  /** The town name " Constructor " does not get the default fee: the
      lookup returns the `Object` constructor function. */
  lemma TownFeeAsWrittenInheritedKey()
    ensures TownFeeAsWritten(Some(" Constructor ")).PrototypeMember?
  {
    ConstructorKey();
    assert "constructor" in PrototypeKeys;
  }
}
