/** The shared record of one menu entry (types.ts). */
module Types {
  import opened Js

  /** The five literals a `spiceLevel` may take, in the order the type
      lists them. */
  datatype SpiceLevel = NoSpice | Mild | Medium | Spicy | VerySpicy

  const SPICE_LEVELS_IN_ORDER: seq<SpiceLevel> := [NoSpice, Mild, Medium, Spicy, VerySpicy]

  /** The string literal of each level. */
  function SpiceLabel(level: SpiceLevel): string {
    match level
    case NoSpice => "None"
    case Mild => "Mild"
    case Medium => "Medium"
    case Spicy => "Spicy"
    case VerySpicy => "Very Spicy"
  }

  /** Reads a string back as one of the five literals, if it is one. */
  function ParseSpiceLevel(s: string): (r: Option<SpiceLevel>)
    ensures r.Some? ==> SpiceLabel(r.value) == s
  {
    if s == "None" then Some(NoSpice)
    else if s == "Mild" then Some(Mild)
    else if s == "Medium" then Some(Medium)
    else if s == "Spicy" then Some(Spicy)
    else if s == "Very Spicy" then Some(VerySpicy)
    else None
  }

  /** Every level's literal reads back as that level, so the labels are
      pairwise distinct. */
  lemma SpiceLabelRoundTrip(level: SpiceLevel)
    ensures ParseSpiceLevel(SpiceLabel(level)) == Some(level)
  {
  }

  /** The names of a `MenuItem`'s seven fields, in declaration order. */
  const MENU_ITEM_FIELDS: seq<string> :=
    ["originalName", "translatedName", "description", "allergens",
     "spiceLevel", "dietaryNotes", "pairingSuggestion"]

  datatype MenuItem = MenuItem(
    originalName: string,
    translatedName: string,
    description: string,
    allergens: seq<string>,
    spiceLevel: SpiceLevel,
    dietaryNotes: seq<string>,
    pairingSuggestion: string)

  /** The JSON object a `MenuItem` is, with its fields in declaration
      order; it is what the service's `as MenuItem[]` cast takes each
      parsed element to be. */
  function AsJson(m: MenuItem): (j: Json)
    ensures j.JObject? && |j.members| == |MENU_ITEM_FIELDS|
    ensures forall i :: 0 <= i < |MENU_ITEM_FIELDS| ==> j.members[i].key == MENU_ITEM_FIELDS[i]
  {
    JObject([
      Member("originalName", JString(m.originalName)),
      Member("translatedName", JString(m.translatedName)),
      Member("description", JString(m.description)),
      Member("allergens", StringArray(m.allergens)),
      Member("spiceLevel", JString(SpiceLabel(m.spiceLevel))),
      Member("dietaryNotes", StringArray(m.dietaryNotes)),
      Member("pairingSuggestion", JString(m.pairingSuggestion))])
  }

  /** A JSON array of strings. */
  function StringArray(xs: seq<string>): (j: Json)
    ensures j.JArray? && |j.elems| == |xs|
    ensures forall i :: 0 <= i < |xs| ==> j.elems[i] == JString(xs[i])
  {
    JArray(seq(|xs|, i requires 0 <= i < |xs| => JString(xs[i])))
  }

  /** The strings of a JSON array whose elements are all strings. */
  function StringsOf(j: Json): (r: Option<seq<string>>)
    ensures r.Some? <==> j.JArray? && forall i :: 0 <= i < |j.elems| ==> j.elems[i].JString?
    ensures r.Some? ==> StringArray(r.value) == j
  {
    if j.JArray? && forall i :: 0 <= i < |j.elems| ==> j.elems[i].JString? then
      Some(seq(|j.elems|, i requires 0 <= i < |j.elems| => j.elems[i].s))
    else None
  }

  /** Reading a parsed value as a `MenuItem`: an object whose seven fields
      are present with the declared types. Extra keys are ignored. */
  function ItemOf(j: Json): (r: Option<MenuItem>)
  {
    if !j.JObject? then None
    else
      var ms := j.members;
      var on := Lookup(ms, "originalName");
      var tn := Lookup(ms, "translatedName");
      var de := Lookup(ms, "description");
      var al := Lookup(ms, "allergens");
      var sp := Lookup(ms, "spiceLevel");
      var dn := Lookup(ms, "dietaryNotes");
      var ps := Lookup(ms, "pairingSuggestion");
      if && on.Some? && on.value.JString?
         && tn.Some? && tn.value.JString?
         && de.Some? && de.value.JString?
         && al.Some? && StringsOf(al.value).Some?
         && sp.Some? && sp.value.JString? && ParseSpiceLevel(sp.value.s).Some?
         && dn.Some? && StringsOf(dn.value).Some?
         && ps.Some? && ps.value.JString?
      then
        Some(MenuItem(on.value.s, tn.value.s, de.value.s, StringsOf(al.value).value,
                      ParseSpiceLevel(sp.value.s).value, StringsOf(dn.value).value, ps.value.s))
      else None
  }

  /** The strings written as a JSON array read back unchanged. */
  lemma StringsOfStringArray(xs: seq<string>)
    ensures StringsOf(StringArray(xs)) == Some(xs)
  {
    var r := StringsOf(StringArray(xs));
    assert r.Some?;
    assert |r.value| == |xs|;
    assert forall i :: 0 <= i < |xs| ==> r.value[i] == xs[i];
    assert r.value == xs;
  }

  /** In an object whose keys are pairwise distinct, looking up a key
      finds the member that holds it. */
  lemma LookupDistinct(ms: seq<Member>, i: nat)
    requires i < |ms|
    requires forall a, b :: 0 <= a < b < |ms| ==> ms[a].key != ms[b].key
    ensures Lookup(ms, ms[i].key) == Some(ms[i].value)
  {
    LookupFindsLast(ms, ms[i].key);
  }

  /** A `MenuItem` written as JSON reads back as itself. */
  lemma ItemOfAsJson(m: MenuItem)
    ensures ItemOf(AsJson(m)) == Some(m)
  {
    var ms := AsJson(m).members;
    forall k | 0 <= k < |ms| ensures Lookup(ms, ms[k].key) == Some(ms[k].value) {
      LookupDistinct(ms, k);
    }
    SpiceLabelRoundTrip(m.spiceLevel);
    StringsOfStringArray(m.allergens);
    StringsOfStringArray(m.dietaryNotes);
    assert Lookup(ms, "allergens") == Some(StringArray(m.allergens)) by {
      assert ms[3].key == "allergens";
    }
    assert Lookup(ms, "dietaryNotes") == Some(StringArray(m.dietaryNotes)) by {
      assert ms[5].key == "dietaryNotes";
    }
    assert Lookup(ms, "originalName") == Some(JString(m.originalName)) by { assert ms[0].key == "originalName"; }
    assert Lookup(ms, "translatedName") == Some(JString(m.translatedName)) by { assert ms[1].key == "translatedName"; }
    assert Lookup(ms, "description") == Some(JString(m.description)) by { assert ms[2].key == "description"; }
    assert Lookup(ms, "spiceLevel") == Some(JString(SpiceLabel(m.spiceLevel))) by { assert ms[4].key == "spiceLevel"; }
    assert Lookup(ms, "pairingSuggestion") == Some(JString(m.pairingSuggestion)) by { assert ms[6].key == "pairingSuggestion"; }
  }
}
