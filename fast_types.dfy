/** The catalogue of fasting protocols and custom durations (src/utils/fastTypes.ts). */
module FastTypes {
  import opened Wrappers
  import opened Types
  import opened Strings

  const CommonFastTypes: seq<FastType> := [
    FastType("16-8", "16:8 Intermittent", 16, false),
    FastType("18-6", "18:6 Intermittent", 18, false),
    FastType("20-4", "20:4 Intermittent", 20, false),
    FastType("24h", "24 Hours", 24, false),
    FastType("36h", "36 Hours", 36, false),
    FastType("48h", "48 Hours", 48, false),
    FastType("72h", "72 Hours", 72, false),
    FastType("96h", "96 Hours", 96, false),
    FastType("120h", "120 Hours (5 Days)", 120, false),
    FastType("168h", "168 Hours (7 Days)", 168, false)
  ]

  /** The catalogue is ordered by strictly increasing duration, its ids are distinct and
      none of its entries is custom. */
  lemma CommonFastTypesWellFormed()
    ensures forall i, j :: 0 <= i < j < |CommonFastTypes| ==> CommonFastTypes[i].hours < CommonFastTypes[j].hours
    ensures forall i, j :: 0 <= i < j < |CommonFastTypes| ==> CommonFastTypes[i].id != CommonFastTypes[j].id
    ensures forall i :: 0 <= i < |CommonFastTypes| ==> !CommonFastTypes[i].isCustom
  {
    forall i, j | 0 <= i < j < |CommonFastTypes|
      ensures CommonFastTypes[i].id != CommonFastTypes[j].id
    {
      assert CommonFastTypes[i].hours < CommonFastTypes[j].hours;
    }
  }

  lemma CatalogueIdsStartWithDigit()
    ensures forall i :: 0 <= i < |CommonFastTypes| ==> CommonFastTypes[i].id != [] && IsDigit(CommonFastTypes[i].id[0])
  {
  }

  const CustomPrefix := "custom-"

  /** `createCustomFastType(hours)`: a custom type whose id and name both carry the
      duration, so `parseInt` reads it back from either, and whose id is never the id of a
      catalogue entry. */
  function CreateCustomFastType(hours: int): (t: FastType)
    ensures t.hours == hours && t.isCustom
    ensures t.id == CustomPrefix + IntToDecimal(hours) + "h"
    ensures t.name == IntToDecimal(hours) + " Hours (Custom)"
    ensures |t.id| > |CustomPrefix| && ParseInt(t.id[|CustomPrefix|..]) == Some(hours)
    ensures ParseInt(t.name) == Some(hours)
    ensures forall i :: 0 <= i < |CommonFastTypes| ==> t.id != CommonFastTypes[i].id
  {
    var digits := IntToDecimal(hours);
    var id := CustomPrefix + digits + "h";
    assert id[|CustomPrefix|..] == digits + "h";
    ParseIntOfDecimalPrefix(hours, "h");
    ParseIntOfDecimalPrefix(hours, " Hours (Custom)");
    CatalogueIdsStartWithDigit();
    assert !IsDigit(id[0]);
    FastType(id, digits + " Hours (Custom)", hours, true)
  }

  /** Custom types of different durations have different ids, since each id reads back
      as its duration, and no custom id is the id of a catalogue entry. */
  lemma CustomIdsDistinct(a: int, b: int)
    ensures a != b ==> CreateCustomFastType(a).id != CreateCustomFastType(b).id
    ensures forall i :: 0 <= i < |CommonFastTypes| ==> CreateCustomFastType(a).id != CommonFastTypes[i].id
  {
  }
}
