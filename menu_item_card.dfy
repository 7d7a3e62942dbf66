/** One dish card (components/MenuItemCard.tsx): the chili indicator, the
    rules for which detail sections appear, the expand toggle, and the
    image fetch whose late result is dropped once the card is gone. */
module MenuItemCard {
  import opened Js
  import opened Types
  import GeminiService

  // ---------------------------------------------------------------------
  // The spice indicator
  // ---------------------------------------------------------------------

  const MAX_SPICE: nat := 4

  /** The `spiceLevels` table, keyed by the literal strings. */
  const SPICE_LEVELS: map<string, nat> :=
    map["None" := 0, "Mild" := 1, "Medium" := 2, "Spicy" := 3, "Very Spicy" := 4]

  /** `spiceLevels[level] ?? 0`: the table's value, or 0 for a string that
      is not one of its keys. */
  function SpiceValue(level: string): (v: nat)
    ensures v <= MAX_SPICE
    ensures level !in SPICE_LEVELS ==> v == 0
  {
    if level in SPICE_LEVELS then SPICE_LEVELS[level] else 0
  }

  /** The table sends the i-th literal of the type to i: it covers exactly
      the five literals, strictly increases in their order, and runs from 0
      to `MAX_SPICE`. */
  lemma SpiceTableIsTheOrdinal()
    ensures SPICE_LEVELS.Keys == set l | l in SPICE_LEVELS_IN_ORDER :: SpiceLabel(l)
    ensures forall i :: 0 <= i < |SPICE_LEVELS_IN_ORDER| ==> SpiceValue(SpiceLabel(SPICE_LEVELS_IN_ORDER[i])) == i
    ensures forall i, j :: 0 <= i < j < |SPICE_LEVELS_IN_ORDER| ==>
              SpiceValue(SpiceLabel(SPICE_LEVELS_IN_ORDER[i])) < SpiceValue(SpiceLabel(SPICE_LEVELS_IN_ORDER[j]))
    ensures SpiceValue(SpiceLabel(SPICE_LEVELS_IN_ORDER[|SPICE_LEVELS_IN_ORDER| - 1])) == MAX_SPICE
  {
    var labels := set l | l in SPICE_LEVELS_IN_ORDER :: SpiceLabel(l);
    assert labels == {"None", "Mild", "Medium", "Spicy", "Very Spicy"} by {
      assert SpiceLabel(SPICE_LEVELS_IN_ORDER[0]) in labels;
      assert SpiceLabel(SPICE_LEVELS_IN_ORDER[1]) in labels;
      assert SpiceLabel(SPICE_LEVELS_IN_ORDER[2]) in labels;
      assert SpiceLabel(SPICE_LEVELS_IN_ORDER[3]) in labels;
      assert SpiceLabel(SPICE_LEVELS_IN_ORDER[4]) in labels;
    }
  }

  datatype Chili = Red | Grey

  /** n copies of one icon. */
  function Repeat(c: Chili, n: nat): (r: seq<Chili>)
    ensures |r| == n && forall i :: 0 <= i < n ==> r[i] == c
  {
    if n == 0 then [] else [c] + Repeat(c, n - 1)
  }

  /** `[...Array(MAX_SPICE)].map((_, i) => i < levelValue ? red : grey)`:
      always four icons, the first `levelValue` red and the rest grey. */
  function ChiliRow(levelValue: nat): (icons: seq<Chili>)
    requires levelValue <= MAX_SPICE
    ensures icons == Repeat(Red, levelValue) + Repeat(Grey, MAX_SPICE - levelValue)
  {
    var icons := seq(MAX_SPICE, i requires 0 <= i < MAX_SPICE => if i < levelValue then Red else Grey);
    assert icons == Repeat(Red, levelValue) + Repeat(Grey, MAX_SPICE - levelValue);
    icons
  }

  /** The number of red icons in a row. */
  function RedCount(icons: seq<Chili>): nat {
    if icons == [] then 0 else (if icons[0] == Red then 1 else 0) + RedCount(icons[1..])
  }

  lemma {:induction false} RedCountRepeat(c: Chili, n: nat, rest: seq<Chili>)
    ensures RedCount(Repeat(c, n) + rest) == (if c == Red then n else 0) + RedCount(rest)
  {
    if n == 0 {
      assert Repeat(c, n) + rest == rest;
    } else {
      var whole := Repeat(c, n) + rest;
      assert whole[0] == c;
      assert whole[1..] == Repeat(c, n - 1) + rest;
      RedCountRepeat(c, n - 1, rest);
    }
  }

  /** What `SpiceLevelIndicator` renders: nothing, or a titled row of icons. */
  datatype Indicator = Indicator(title: string, icons: seq<Chili>)

  /** `SpiceLevelIndicator({ level })`. */
  function SpiceLevelIndicator(level: string): Option<Indicator> {
    var levelValue := SpiceValue(level);
    if levelValue == 0 then None
    else Some(Indicator("Spice Level: " + level, ChiliRow(levelValue)))
  }

  /** The indicator renders nothing exactly when the level's value is 0
      (for "None" and for any string outside the table); otherwise it
      renders four icons of which exactly the level's value are red. */
  lemma SpiceLevelIndicatorShape(level: string)
    ensures SpiceLevelIndicator(level).None? <==> SpiceValue(level) == 0
    ensures level == "None" || level !in SPICE_LEVELS ==> SpiceLevelIndicator(level).None?
    ensures SpiceLevelIndicator(level).Some? ==>
              var icons := SpiceLevelIndicator(level).value.icons;
              |icons| == MAX_SPICE && RedCount(icons) == SpiceValue(level)
  {
    var v := SpiceValue(level);
    if v != 0 {
      RedCountRepeat(Red, v, Repeat(Grey, MAX_SPICE - v));
      RedCountRepeat(Grey, MAX_SPICE - v, []);
      assert Repeat(Grey, MAX_SPICE - v) + [] == Repeat(Grey, MAX_SPICE - v);
    }
  }

  // ---------------------------------------------------------------------
  // The detail sections
  // ---------------------------------------------------------------------

  /** The dietary tag of one note: the check mark and a space, then the
      note itself, so the note can be read back from the tag. */
  function DietaryTag(note: string): (tag: string)
    ensures |tag| == |note| + 2 && tag[..2] == "✓ " && tag[2..] == note
  {
    "✓ " + note
  }

  /** One tag per note, in order. */
  function DietaryTags(notes: seq<string>): (tags: seq<string>)
    ensures |tags| == |notes|
    ensures forall i :: 0 <= i < |notes| ==> tags[i] == DietaryTag(notes[i])
  {
    if notes == [] then [] else [DietaryTag(notes[0])] + DietaryTags(notes[1..])
  }

  /** The expandable part of a card; a section the card leaves out is
      `None`. */
  datatype Details = Details(
    description: string,
    pairing: Option<string>,
    dietaryTags: Option<seq<string>>,
    allergenTags: Option<seq<string>>)

  /** The detail sections of an item: the description always; the pairing
      block for a non-empty suggestion; the dietary and the allergen
      sections when their lists are non-empty, with one tag per entry in
      order. */
  function DetailsOf(item: MenuItem): (d: Details)
    ensures d.description == item.description
    ensures d.pairing.Some? <==> item.pairingSuggestion != ""
    ensures d.pairing.Some? ==> d.pairing.value == item.pairingSuggestion
    ensures d.dietaryTags.Some? <==> |item.dietaryNotes| > 0
    ensures d.dietaryTags.Some? ==> d.dietaryTags.value == DietaryTags(item.dietaryNotes)
    ensures d.allergenTags.Some? <==> |item.allergens| > 0
    ensures d.allergenTags.Some? ==> d.allergenTags.value == item.allergens
  {
    Details(
      item.description,
      if item.pairingSuggestion != "" then Some(item.pairingSuggestion) else None,
      if |item.dietaryNotes| > 0 then Some(DietaryTags(item.dietaryNotes)) else None,
      if |item.allergens| > 0 then Some(item.allergens) else None)
  }

  // ---------------------------------------------------------------------
  // The card itself
  // ---------------------------------------------------------------------

  datatype ImageArea = Spinner | Picture(src: string, alt: string)

  /** Everything a card shows. The details are always in the tree; the
      expand state only opens them (`height: auto` rather than 0) and turns
      the arrow. */
  datatype CardView = CardView(
    image: ImageArea,
    originalName: string,
    translatedName: string,
    summary: string,
    spice: Option<Indicator>,
    arrowDegrees: nat,
    detailsOpen: bool,
    details: Details)

  class Card {
    const item: MenuItem
    var isExpanded: bool
    var imageUrl: string
    var isLoadingImage: bool
    /** The `isMounted` flag of the card's image effect. */
    var isMounted: bool
    /** Whether the one illustration call the effect starts, for the
        item's translated name, has yet to settle. */
    var awaiting: bool

    /** Mounting: the initial `useState` values, then the effect, which sets
        its flag, shows the spinner and starts the illustration call. */
    constructor Mount(item: MenuItem)
      ensures this.item == item
      ensures !isExpanded && imageUrl == "" && isLoadingImage && isMounted && awaiting
    {
      this.item := item;
      isExpanded := false;
      imageUrl := "";
      isMounted := true;
      isLoadingImage := true;
      awaiting := true;
    }

    /** A click on the card flips `isExpanded`. */
    method Click()
      modifies this`isExpanded
      ensures isExpanded == !old(isExpanded)
    {
      isExpanded := !isExpanded;
    }

    /** The effect's cleanup, run when the card is removed. */
    method Unmount()
      modifies this`isMounted
      ensures !isMounted
    {
      isMounted := false;
    }

    /** The effect's continuation once the illustration call resolves with
        `generatedUrl`: applied only while the card is mounted, dropped
        otherwise. The call settles once. */
    method ImageResolved(generatedUrl: string)
      requires awaiting
      modifies this`imageUrl, this`isLoadingImage, this`awaiting
      ensures !awaiting
      ensures old(isMounted) ==> imageUrl == generatedUrl && !isLoadingImage
      ensures !old(isMounted) ==> imageUrl == old(imageUrl) && isLoadingImage == old(isLoadingImage)
    {
      awaiting := false;
      if isMounted {
        imageUrl := generatedUrl;
        isLoadingImage := false;
      }
    }

    /** The pending illustration call settling, with the service behind
        it: a mounted card ends up showing what `generateMenuItemImage`
        made of the name it asked for; a removed one is left as it was. */
    method ResolveWith(generate: GeminiService.ImageRequest -> Outcome<GeminiService.ImageReply>)
      requires awaiting
      modifies this`imageUrl, this`isLoadingImage, this`awaiting
      ensures !awaiting
      ensures old(isMounted) ==>
                imageUrl == GeminiService.ImageUrlFor(generate(GeminiService.ImageRequestFor(item.translatedName)))
                && !isLoadingImage
      ensures !old(isMounted) ==> imageUrl == old(imageUrl) && isLoadingImage == old(isLoadingImage)
    {
      var generatedUrl := GeminiService.GenerateMenuItemImage(item.translatedName, generate);
      ImageResolved(generatedUrl);
    }

    /** What the card renders. */
    function View(): (v: CardView)
      reads this
      ensures v.image == (if isLoadingImage then Spinner else Picture(imageUrl, item.translatedName))
      ensures v.detailsOpen == isExpanded && v.details == DetailsOf(item)
      ensures v.spice == SpiceLevelIndicator(SpiceLabel(item.spiceLevel))
    {
      CardView(
        if isLoadingImage then Spinner else Picture(imageUrl, item.translatedName),
        item.originalName,
        item.translatedName,
        item.description,
        SpiceLevelIndicator(SpiceLabel(item.spiceLevel)),
        if isExpanded then 180 else 0,
        isExpanded,
        DetailsOf(item))
    }
  }

  /** Two clicks give back the card as it was. */
  method ClickTwice(c: Card)
    modifies c`isExpanded
    ensures c.isExpanded == old(c.isExpanded)
    ensures c.imageUrl == old(c.imageUrl) && c.isLoadingImage == old(c.isLoadingImage)
  {
    c.Click();
    c.Click();
  }

  /** After the cleanup, a late illustration changes nothing the card
      shows. */
  method LateImageIsDropped(c: Card, generatedUrl: string)
    requires c.awaiting
    modifies c
    ensures !c.isMounted
    ensures c.View() == old(c.View())
  {
    c.Unmount();
    c.ImageResolved(generatedUrl);
  }
}
