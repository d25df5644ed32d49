/** The protocol picker (src/components/FastTypeSelector/FastTypeSelector.tsx): the
    catalogue split into intermittent and prolonged tiles, the custom-duration box, and
    which tile shows as selected. The custom box's text is read by `Strings.ParseInt`
    (`None` standing for `NaN`), and `onSelect` is recorded as the list of types passed
    to it. */
module FastTypeSelectorView {
  import opened Wrappers
  import opened Types
  import opened Lists
  import opened Strings
  import opened FastTypes

  /** The longest fast that counts as intermittent, in hours. */
  const IntermittentMaxHours := 20
  /** The longest custom fast accepted, in hours. */
  const MaxCustomHours := 720

  predicate IsIntermittent(t: FastType) {
    t.hours <= IntermittentMaxHours
  }

  predicate IsProlonged(t: FastType) {
    t.hours > IntermittentMaxHours
  }

  function Intermittent(): seq<FastType> {
    Filter(IsIntermittent, CommonFastTypes)
  }

  function Prolonged(): seq<FastType> {
    Filter(IsProlonged, CommonFastTypes)
  }

  /** A list whose every protocol is prolonged has no intermittent one and is its own
      prolonged part. */
  lemma {:induction false} AllProlonged(s: seq<FastType>)
    requires forall i :: 0 <= i < |s| ==> IsProlonged(s[i])
    ensures Filter(IsIntermittent, s) == [] && Filter(IsProlonged, s) == s
  {
    if s != [] {
      assert s == [s[0]] + s[1..];
      AllProlonged(s[1..]);
    }
  }

  /** An intermittent protocol in front goes to the front of the intermittent part. */
  lemma ShortInFront(s: seq<FastType>)
    requires s != [] && IsIntermittent(s[0])
    requires Filter(IsIntermittent, s[1..]) + Filter(IsProlonged, s[1..]) == s[1..]
    ensures Filter(IsIntermittent, s) + Filter(IsProlonged, s) == s
  {
    var t := s[1..];
    var a, b := Filter(IsIntermittent, t), Filter(IsProlonged, t);
    assert Filter(IsIntermittent, s) == [s[0]] + a;
    assert Filter(IsProlonged, s) == b;
    ConsConcat(s[0], a, b);
    assert s == [s[0]] + t;
  }

  /** In a list ordered by duration, the short ones followed by the long ones give back
      the list itself. */
  lemma {:induction false} SplitByDuration(s: seq<FastType>)
    requires forall i, j :: 0 <= i < j < |s| ==> s[i].hours <= s[j].hours
    ensures Filter(IsIntermittent, s) + Filter(IsProlonged, s) == s
  {
    if s == [] {
    } else if IsIntermittent(s[0]) {
      SplitByDuration(s[1..]);
      ShortInFront(s);
    } else {
      AllProlonged(s);
    }
  }

  /** In a list ordered by duration, the two sections partition the list: every protocol
      sits in exactly one of them, each keeps the list's order, and reading the
      intermittent section then the prolonged one gives back the list. */
  lemma SectionsPartition(s: seq<FastType>)
    requires forall i, j :: 0 <= i < j < |s| ==> s[i].hours <= s[j].hours
    ensures Filter(IsIntermittent, s) + Filter(IsProlonged, s) == s
    ensures forall t :: t in Filter(IsIntermittent, s) ==> t.hours <= IntermittentMaxHours
    ensures forall t :: t in Filter(IsProlonged, s) ==> t.hours > IntermittentMaxHours
    ensures forall t :: t in s ==> (t in Filter(IsIntermittent, s) <==> t !in Filter(IsProlonged, s))
  {
    SplitByDuration(s);
    var a, b := Filter(IsIntermittent, s), Filter(IsProlonged, s);
    forall t | t in a ensures t.hours <= IntermittentMaxHours {
      SectionMember(IsIntermittent, s, t);
    }
    forall t | t in b ensures t.hours > IntermittentMaxHours {
      SectionMember(IsProlonged, s, t);
    }
    forall t | t in s ensures t in a <==> t !in b {
      if t !in a {
        assert t in a + b;
      }
    }
  }

  /** A protocol in a section passes that section's test. */
  lemma SectionMember(p: FastType -> bool, s: seq<FastType>, t: FastType)
    requires t in Filter(p, s)
    ensures p(t)
  {
    var a := Filter(p, s);
    var k :| 0 <= k < |a| && a[k] == t;
  }

  /** The catalogue's tiles: its intermittent section followed by its prolonged section
      is the catalogue itself. */
  lemma SectionsPartitionCatalogue()
    ensures Intermittent() + Prolonged() == CommonFastTypes
    ensures forall t :: t in CommonFastTypes ==> (t in Intermittent() <==> t !in Prolonged())
  {
    CommonFastTypesWellFormed();
    SectionsPartition(CommonFastTypes);
  }

  /** `isCustomSelected` */
  predicate IsCustomSelected(selected: Option<FastType>) {
    selected.Some? && selected.value.isCustom
  }

  /** `selectedType?.id === type.id` */
  predicate TileSelected(selected: Option<FastType>, tile: FastType) {
    selected.Some? && selected.value.id == tile.id
  }

  /** Choosing a catalogue protocol highlights its own tile and no other, and leaves the
      custom tile unselected; choosing a custom duration selects the custom tile and no
      catalogue tile. */
  lemma SelectionHighlightsOneTile(hours: int)
    ensures forall i, j :: 0 <= i < |CommonFastTypes| && 0 <= j < |CommonFastTypes| ==>
      (TileSelected(Some(CommonFastTypes[i]), CommonFastTypes[j]) <==> i == j)
    ensures forall i :: 0 <= i < |CommonFastTypes| ==> !IsCustomSelected(Some(CommonFastTypes[i]))
    ensures IsCustomSelected(Some(CreateCustomFastType(hours)))
    ensures forall j :: 0 <= j < |CommonFastTypes| ==> !TileSelected(Some(CreateCustomFastType(hours)), CommonFastTypes[j])
  {
    CommonFastTypesWellFormed();
    CustomIdsDistinct(hours, hours);
  }

  /** Whether the custom box's value is a duration the picker takes. */
  predicate AcceptedCustomHours(parsed: Option<int>) {
    parsed.Some? && 0 < parsed.value <= MaxCustomHours
  }

  class FastTypePicker {
    var customHours: string
    /** The types handed to `onSelect`, oldest first. */
    var selections: seq<FastType>

    constructor()
      ensures customHours == "" && selections == []
    {
      customHours := "";
      selections := [];
    }

    /** `handleCustomSubmit`: the box's text, read by `parseInt`, selects a custom type of
        exactly that many hours and clears the box when the number is in (0, 720];
        anything else changes nothing. */
    method HandleCustomSubmit()
      modifies this
      ensures AcceptedCustomHours(ParseInt(old(customHours))) ==>
        selections == old(selections) + [CreateCustomFastType(ParseInt(old(customHours)).value)] && customHours == ""
      ensures !AcceptedCustomHours(ParseInt(old(customHours))) ==>
        selections == old(selections) && customHours == old(customHours)
    {
      var hours := ParseInt(customHours);
      if hours.Some? && hours.value > 0 && hours.value <= MaxCustomHours {
        selections := selections + [CreateCustomFastType(hours.value)];
        customHours := "";
      }
    }

    /** `handleTileClick`: the box is cleared and exactly the clicked type is selected. */
    method HandleTileClick(tile: FastType)
      modifies this
      ensures customHours == "" && selections == old(selections) + [tile]
    {
      customHours := "";
      selections := selections + [tile];
    }
  }

  /** Typing a whole number of hours from 1 to 720 selects a custom fast of exactly that
      many hours, which then shows on the custom tile; 0 and anything above 720 are
      refused. */
  lemma TypedHoursSelected(n: nat)
    ensures AcceptedCustomHours(ParseInt(NatToDecimal(n))) <==> 0 < n <= MaxCustomHours
    ensures 0 < n <= MaxCustomHours ==>
      var t := CreateCustomFastType(ParseInt(NatToDecimal(n)).value);
      t.hours == n && IsCustomSelected(Some(t))
  {
    ParseIntOfDecimal(n);
  }
}
