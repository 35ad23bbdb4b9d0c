/** The static venue catalog of `src/lib/experiences.ts`: six immutable
    records and the lookups over them. */
module Catalog {

  import opened Wrappers
  import opened Strings
  import opened CatalogText

  /** One bookable venue. Prices are whole Australian dollars per night. The
      description and image URL are display text that no rule reads, so the
      record leaves them out. */
  datatype Experience = Experience(
    id: string,
    title: string,
    location: string,
    pricePerNight: nat,
    maxGuests: nat,
    amenities: seq<string>
  )

  const BlueMountains := Experience(
    "blue-mountains-retreat",
    "Blue Mountains Corporate Retreat",
    "Blue Mountains, NSW",
    680, 12,
    ["Conference Space", "WiFi", "Spa Facilities", "Team Kitchen", "Presentation Setup"])

  const SydneyHarbour := Experience(
    "sydney-harbour-charter",
    "Sydney Harbour Corporate Charter",
    "Sydney Harbour, NSW",
    4200, 20,
    ["Licensed Skipper", "Premium Catering", "AV Equipment", "Harbour Views"])

  const HunterValley := Experience(
    "hunter-valley-estate",
    "Hunter Valley Wine Estate",
    "Hunter Valley, NSW",
    980, 16,
    ["Team Building Activities", "Wine Tastings", "Corporate BBQ", "Conference Facilities"])

  const BondiBeach := Experience(
    "bondi-beach-house",
    "Bondi Beach Executive Retreat",
    "Bondi Beach, NSW",
    1800, 14,
    ["Private Beach Access", "Executive Dining", "Ocean Terrace", "Surf Lessons", "Concierge Service"])

  const MelbourneRooftop := Experience(
    "melbourne-rooftop-venue",
    "Melbourne CBD Rooftop Venue",
    "Melbourne CBD, VIC",
    1200, 18,
    ["City Views", "Event Space", "Premium Bar", "Corporate Catering", "AV Setup"])

  const BarossaValley := Experience(
    "barossa-valley-winery",
    "Barossa Valley Winery Experience",
    "Barossa Valley, SA",
    750, 24,
    ["Wine Tastings", "Vineyard Tours", "Private Dining", "Team Activities", "Transport Included"])

  /** `EXPERIENCES`, in source order. */
  const Experiences: seq<Experience> :=
    [BlueMountains, SydneyHarbour, HunterValley, BondiBeach, MelbourneRooftop, BarossaValley]

  /** What the rest of the site relies on: ids are keys, and no venue has a
      zero price or capacity, so no per-person price or cost estimate
      divides by zero. */
  predicate WellFormed(xs: seq<Experience>) {
    && (forall i, j | 0 <= i < j < |xs| :: xs[i].id != xs[j].id)
    && (forall i | 0 <= i < |xs| :: xs[i].pricePerNight > 0 && xs[i].maxGuests > 0)
  }

  /** `Array.prototype.find` on the id: the first venue carrying it. */
  function FindById(xs: seq<Experience>, id: string): (r: Option<Experience>)
    ensures r.None? <==> forall i | 0 <= i < |xs| :: xs[i].id != id
    ensures r.Some? ==>
              exists i | 0 <= i < |xs| :: xs[i] == r.value && xs[i].id == id && forall j | 0 <= j < i :: xs[j].id != id
  {
    if |xs| == 0 then None
    else if xs[0].id == id then Some(xs[0])
    else
      var r := FindById(xs[1..], id);
      assert r.Some? ==> exists i | 1 <= i < |xs| :: xs[i] == r.value && xs[i].id == id && forall j | 0 <= j < i :: xs[j].id != id by {
        if r.Some? {
          var k :| 0 <= k < |xs| - 1 && xs[1..][k] == r.value && xs[1..][k].id == id && forall j | 0 <= j < k :: xs[1..][j].id != id;
          assert forall j | 0 <= j < k + 1 :: xs[j].id != id by {
            forall j | 0 <= j < k + 1 ensures xs[j].id != id {
              if j > 0 { assert xs[j] == xs[1..][j - 1]; }
            }
          }
        }
      }
      r
  }

  /** `getExperienceById`: the venue with that id, or nothing. */
  function GetExperienceById(id: string): (r: Option<Experience>)
    ensures r.Some? <==> exists i | 0 <= i < |Experiences| :: Experiences[i].id == id
    ensures r.Some? ==> r.value in Experiences && r.value.id == id
  {
    FindById(Experiences, id)
  }

  /** `getAllExperiences`: the catalog itself, whose records are well formed. */
  function GetAllExperiences(): (r: seq<Experience>)
    ensures |r| == 6 && WellFormed(r)
    ensures forall i | 0 <= i < |r| :: r[i] == Experiences[i]
  {
    CatalogWellFormed();
    Experiences
  }

  /** The catalog has six venues with pairwise-distinct ids, positive
      prices and positive capacities. */
  lemma CatalogWellFormed()
    ensures |Experiences| == 6 && WellFormed(Experiences)
  {
  }

  /** Because ids are distinct, the lookup finds the one venue carrying the
      id, wherever it sits in the catalog. */
  lemma {:induction false} GetByIdIsUnique(i: nat)
    requires i < |Experiences|
    ensures GetExperienceById(Experiences[i].id) == Some(Experiences[i])
  {
    CatalogWellFormed();
    var r := GetExperienceById(Experiences[i].id);
    var k :| 0 <= k < |Experiences| && Experiences[k] == r.value && Experiences[k].id == Experiences[i].id
             && forall j | 0 <= j < k :: Experiences[j].id != Experiences[i].id;
  }

  /** The region tags: the first four venues are in New South Wales, the
      fifth in Victoria, and no location names both states. */
  lemma RegionTags()
    ensures forall i | 0 <= i < |Experiences| :: Contains(Experiences[i].location, "NSW") <==> i < 4
    ensures forall i | 0 <= i < |Experiences| :: Contains(Experiences[i].location, "VIC") <==> i == 4
  {
    var locs := Locations();
    forall i | 0 <= i < |Experiences|
      ensures Contains(Experiences[i].location, "NSW") <==> i < 4
      ensures Contains(Experiences[i].location, "VIC") <==> i == 4
    {
      assert Experiences[i].location == locs[i];
      RegionTag(i);
    }
  }

  function Locations(): (r: seq<string>)
    ensures |r| == |Experiences|
    ensures forall i | 0 <= i < |r| :: r[i] == Experiences[i].location
  {
    ["Blue Mountains, NSW", "Sydney Harbour, NSW", "Hunter Valley, NSW",
     "Bondi Beach, NSW", "Melbourne CBD, VIC", "Barossa Valley, SA"]
  }

  lemma RegionTag(i: nat)
    requires i < 6
    ensures Contains(Locations()[i], "NSW") <==> i < 4
    ensures Contains(Locations()[i], "VIC") <==> i == 4
  {
    if i == 0 || i == 2 { InlandNswTags(); }
    else if i == 1 || i == 3 { CoastalNswTags(); }
    else if i == 4 { MelbourneTag(); }
    else { BarossaTag(); }
  }

  /** A location holding "NSW" and no 'C' is tagged New South Wales only. */
  lemma NswTag(s: string, i: nat)
    requires OccursAt(s, "NSW", i) && 'C' !in s
    ensures Contains(s, "NSW") && !Contains(s, "VIC")
  {
    NotContainsChar(s, "VIC", 2);
  }

  /** The two New South Wales locations inland. */
  lemma InlandNswTags()
    ensures Contains("Blue Mountains, NSW", "NSW") && !Contains("Blue Mountains, NSW", "VIC")
    ensures Contains("Hunter Valley, NSW", "NSW") && !Contains("Hunter Valley, NSW", "VIC")
  {
    NswTag("Blue Mountains, NSW", 16);
    NswTag("Hunter Valley, NSW", 15);
  }

  /** The two New South Wales locations on the coast. */
  lemma CoastalNswTags()
    ensures Contains("Sydney Harbour, NSW", "NSW") && !Contains("Sydney Harbour, NSW", "VIC")
    ensures Contains("Bondi Beach, NSW", "NSW") && !Contains("Bondi Beach, NSW", "VIC")
  {
    NswTag("Sydney Harbour, NSW", 16);
    NswTag("Bondi Beach, NSW", 13);
  }

  lemma MelbourneTag()
    ensures !Contains("Melbourne CBD, VIC", "NSW") && Contains("Melbourne CBD, VIC", "VIC")
  {
    assert OccursAt("Melbourne CBD, VIC", "VIC", 15);
    NotContainsChar("Melbourne CBD, VIC", "NSW", 0);
  }

  lemma BarossaTag()
    ensures !Contains("Barossa Valley, SA", "NSW") && !Contains("Barossa Valley, SA", "VIC")
  {
    NotContainsChar("Barossa Valley, SA", "NSW", 0);
    NotContainsChar("Barossa Valley, SA", "VIC", 1);
  }

  function AmenityLists(): (r: seq<seq<string>>)
    ensures |r| == |Experiences|
    ensures forall i | 0 <= i < |r| :: r[i] == Experiences[i].amenities
  {
    [BlueMountains.amenities, SydneyHarbour.amenities, HunterValley.amenities,
     BondiBeach.amenities, MelbourneRooftop.amenities, BarossaValley.amenities]
  }

  /** Only the Sydney Harbour charter ("Premium Catering") and the Melbourne
      rooftop ("Premium Bar") offer a bar or catering. */
  lemma CelebrationVenues()
    ensures forall i | 0 <= i < |Experiences| ::
              HasBarOrCatering(Experiences[i].amenities) <==> i == 1 || i == 4
  {
    var lists := AmenityLists();
    forall i | 0 <= i < |Experiences|
      ensures HasBarOrCatering(Experiences[i].amenities) <==> i == 1 || i == 4
    {
      assert Experiences[i].amenities == lists[i];
      AmenityTag(i);
    }
  }

  lemma AmenityTag(i: nat)
    requires i < 6
    ensures HasBarOrCatering(AmenityLists()[i]) <==> i == 1 || i == 4
  {
    if i == 0 { BlueMountainsAmenities(); }
    else if i == 1 { SydneyHarbourAmenities(); }
    else if i == 2 { HunterValleyAmenities(); }
    else if i == 3 { BondiBeachAmenities(); }
    else if i == 4 { MelbourneAmenities(); }
    else { BarossaAmenities(); }
  }

  /** Which titles carry the word "Executive": Bondi Beach's does; the Blue
      Mountains, Hunter Valley and Barossa titles do not. */
  lemma ExecutiveTitles()
    ensures Contains(BondiBeach.title, "Executive")
    ensures !Contains(BlueMountains.title, "Executive")
    ensures !Contains(HunterValley.title, "Executive")
    ensures !Contains(BarossaValley.title, "Executive")
  {
    BondiBeachTitle();
    PlainTitles();
  }


}

/** Facts about the literal text of the catalog: which amenities mention a
    bar or catering, and which titles the word "Executive". Each is proved on
    the string itself, away from the catalog's records. */
module CatalogText {

  import opened Strings

  /** One amenity of the celebration rule's test: it mentions "Bar" or
      "Catering". */
  predicate Festive(amenity: string) {
    Contains(amenity, "Bar") || Contains(amenity, "Catering")
  }

  /** The celebration rule's amenity test: some amenity mentions "Bar" or
      "Catering". */
  predicate HasBarOrCatering(amenities: seq<string>) {
    exists i | 0 <= i < |amenities| :: Festive(amenities[i])
  }

  // Each venue's amenities, read against "Bar" and "Catering": a list of
  // absences names, amenity by amenity, the letter (or the letter pair) of
  // the word that the amenity lacks.

  /** A list of amenities passes the test only if some amenity has no
      reason to lack "Bar" or no reason to lack "Catering". */
  lemma NoneFestive(amenities: seq<string>, bar: seq<Absence>, catering: seq<Absence>)
    requires |bar| == |amenities| && |catering| == |amenities|
    requires forall i | 0 <= i < |amenities| ::
               Absent(amenities[i], "Bar", bar[i]) && Absent(amenities[i], "Catering", catering[i])
    ensures !HasBarOrCatering(amenities)
  {
    forall i | 0 <= i < |amenities| ensures !Festive(amenities[i]) {
      AbsentNotContains(amenities[i], "Bar", bar[i]);
      AbsentNotContains(amenities[i], "Catering", catering[i]);
    }
  }

  lemma BlueMountainsAmenities()
    ensures !HasBarOrCatering(["Conference Space", "WiFi", "Spa Facilities", "Team Kitchen", "Presentation Setup"])
  {
    var list := ["Conference Space", "WiFi", "Spa Facilities", "Team Kitchen", "Presentation Setup"];
    NoneFestive(list, [Letter(0), Letter(0), Letter(0), Letter(0), Letter(0)], [Letter(7), Letter(7), Letter(7), Letter(7), Letter(7)]);
  }

  lemma SydneyHarbourAmenities()
    ensures HasBarOrCatering(["Licensed Skipper", "Premium Catering", "AV Equipment", "Harbour Views"])
  {
    var list := ["Licensed Skipper", "Premium Catering", "AV Equipment", "Harbour Views"];
    assert OccursAt(list[1], "Catering", 8);
  }

  lemma HunterValleyAmenities()
    ensures !HasBarOrCatering(["Team Building Activities", "Wine Tastings", "Corporate BBQ", "Conference Facilities"])
  {
    var list := ["Team Building Activities", "Wine Tastings", "Corporate BBQ", "Conference Facilities"];
    NoneFestive(list, [Letter(2), Letter(0), Pair(1), Letter(0)], [Letter(0), Letter(0), Letter(7), Letter(7)]);
  }

  lemma BondiBeachAmenities()
    ensures !HasBarOrCatering(["Private Beach Access", "Executive Dining", "Ocean Terrace", "Surf Lessons", "Concierge Service"])
  {
    var list := ["Private Beach Access", "Executive Dining", "Ocean Terrace", "Surf Lessons", "Concierge Service"];
    NoneFestive(list, [Pair(0), Letter(0), Letter(0), Letter(0), Letter(0)], [Letter(7), Letter(0), Letter(7), Letter(7), Letter(1)]);
  }

  lemma MelbourneAmenities()
    ensures HasBarOrCatering(["City Views", "Event Space", "Premium Bar", "Corporate Catering", "AV Setup"])
  {
    var list := ["City Views", "Event Space", "Premium Bar", "Corporate Catering", "AV Setup"];
    assert OccursAt(list[2], "Bar", 8);
  }

  lemma BarossaAmenities()
    ensures !HasBarOrCatering(["Wine Tastings", "Vineyard Tours", "Private Dining", "Team Activities", "Transport Included"])
  {
    var list := ["Wine Tastings", "Vineyard Tours", "Private Dining", "Team Activities", "Transport Included"];
    NoneFestive(list, [Letter(0), Letter(0), Letter(0), Letter(0), Letter(0)], [Letter(0), Letter(7), Letter(0), Letter(7), Letter(7)]);
  }

  lemma BondiBeachTitle()
    ensures Contains("Bondi Beach Executive Retreat", "Executive")
  {
    assert OccursAt("Bondi Beach Executive Retreat", "Executive", 12);
  }

  /** The titles of the three venues under $1000 a night lack a letter of
      "Executive" ('x' twice, 'c' once). */
  lemma PlainTitles()
    ensures !Contains("Blue Mountains Corporate Retreat", "Executive")
    ensures !Contains("Hunter Valley Wine Estate", "Executive")
    ensures !Contains("Barossa Valley Winery Experience", "Executive")
  {
    var titles := ["Blue Mountains Corporate Retreat", "Hunter Valley Wine Estate", "Barossa Valley Winery Experience"];
    NoneContains(titles, "Executive", [Letter(1), Letter(1), Letter(4)]);
    assert !Contains(titles[0], "Executive") && !Contains(titles[1], "Executive") && !Contains(titles[2], "Executive");
  }
}
