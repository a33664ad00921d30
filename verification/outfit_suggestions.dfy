/** The outfit-suggestions screen: a fixed catalog of four outfits, an
    occasion filter whose special value "all" shows everything, and a list of
    liked outfit ids kept with the toggle rule. */
module OutfitScreen {
  import opened Sequences
  import opened Selection

  datatype Weather = Sunny | Mild | Cold

  /** One catalog record. Its rating (a decimal number shown next to a star)
      plays no part in any rule and is not kept. */
  datatype Outfit = Outfit(
    id: int,
    title: string,
    description: string,
    weather: Weather,
    occasion: string,
    items: seq<string>,
    colors: seq<string>)

  const CasualChic := Outfit(1, "Casual Chic", "Perfect for weekend brunch or casual meetings", Sunny, "Casual",
    ["White Button-up Shirt", "Dark Wash Jeans", "Brown Leather Loafers", "Crossbody Bag"],
    ["#FFFFFF", "#1E3A8A", "#8B4513", "#D2691E"])
  const ProfessionalPower := Outfit(2, "Professional Power", "Command attention in the boardroom", Mild, "Work",
    ["Navy Blazer", "White Blouse", "Tailored Trousers", "Block Heels"],
    ["#1E3A8A", "#FFFFFF", "#374151", "#000000"])
  const DateNightElegance := Outfit(3, "Date Night Elegance", "Sophisticated and romantic", Mild, "Date Night",
    ["Little Black Dress", "Statement Jewelry", "Red Heels", "Clutch Purse"],
    ["#000000", "#FFD700", "#DC2626", "#1F2937"])
  const BohemianVibes := Outfit(4, "Bohemian Vibes", "Free-spirited and artistic", Sunny, "Creative",
    ["Flowy Maxi Dress", "Layered Necklaces", "Sandals", "Fringed Bag"],
    ["#F59E0B", "#10B981", "#8B5CF6", "#EF4444"])

  /** `mockOutfits`, in display order. */
  const MockOutfits: seq<Outfit> := [CasualChic, ProfessionalPower, DateNightElegance, BohemianVibes]

  /** The catalog holds four outfits numbered 1 to 4 in display order, so an
      id names one card. */
  lemma CatalogIds()
    ensures |MockOutfits| == 4
    ensures forall i | 0 <= i < |MockOutfits| :: MockOutfits[i].id == i + 1
    ensures forall i, j | 0 <= i < j < |MockOutfits| :: MockOutfits[i].id != MockOutfits[j].id
  {
  }

  /** The filter values the four filter badges set. */
  const AllFilter := "all"
  const FilterButtons: seq<string> := [AllFilter, "work", "casual", "date night"]

  /** `toLowerCase` on one character, restricted to ASCII letters. */
  function LowerChar(c: char): (r: char)
    ensures 'A' <= c <= 'Z' ==> 'a' <= r <= 'z' && r as int - c as int == 32
    ensures !('A' <= c <= 'Z') ==> r == c
  {
    if 'A' <= c <= 'Z' then (c as int + 32) as char else c
  }

  /** `toLowerCase` on a string, character by character. */
  function Lower(s: string): (r: string)
    ensures |r| == |s|
    ensures forall i | 0 <= i < |s| :: r[i] == LowerChar(s[i])
  {
    seq(|s|, i requires 0 <= i < |s| => LowerChar(s[i]))
  }

  /** Lowering an already lowered string changes nothing. */
  lemma LowerIdempotent(s: string)
    ensures Lower(Lower(s)) == Lower(s)
  {
  }

  /** Filtering by a filter value or by its lowered form shows the same cards,
      unless one of the two is exactly "all". */
  lemma {:induction false} LoweredFilterShowsSame(catalog: seq<Outfit>, f: string)
    requires f != AllFilter && Lower(f) != AllFilter
    ensures FilterByOccasion(catalog, Lower(f)) == FilterByOccasion(catalog, f)
  {
    LowerIdempotent(f);
    FilterIgnoresCase(catalog, Lower(f), f);
  }

  /** The case-insensitive occasion test applied to each catalog record. */
  predicate OccasionMatches(filter: string, o: Outfit)
  {
    Lower(o.occasion) == Lower(filter)
  }

  /** `filteredOutfits` over a catalog: the whole catalog when the filter is
      exactly "all", otherwise the records whose occasion equals the filter
      ignoring letter case, in catalog order. */
  function FilterByOccasion(catalog: seq<Outfit>, filter: string): (r: seq<Outfit>)
    ensures filter == AllFilter ==> r == catalog
    ensures filter != AllFilter ==> IsSubsequence(r, catalog)
    ensures filter != AllFilter ==> forall o | o in r :: o in catalog && Lower(o.occasion) == Lower(filter)
    ensures filter != AllFilter ==> forall o | o in catalog && Lower(o.occasion) == Lower(filter) :: o in r
  {
    if filter == AllFilter then catalog
    else Filter(catalog, o => OccasionMatches(filter, o))
  }

  /** The cards shown for a filter value: all four under "all", otherwise the
      catalog records whose occasion matches, in catalog order. */
  function VisibleOutfits(filter: string): (r: seq<Outfit>)
    ensures filter == AllFilter ==> r == MockOutfits
    ensures |r| <= |MockOutfits|
    ensures forall o | o in r :: o in MockOutfits
    ensures filter != AllFilter ==> IsSubsequence(r, MockOutfits)
  {
    FilterByOccasion(MockOutfits, filter)
  }

  /** A record is shown as often as the catalog holds it when it matches, and
      never when it does not. */
  lemma FilterByOccasionMultiplicity(catalog: seq<Outfit>, filter: string, o: Outfit)
    requires filter != AllFilter
    ensures multiset(FilterByOccasion(catalog, filter))[o]
         == if Lower(o.occasion) == Lower(filter) then multiset(catalog)[o] else 0
  {
    FilterMultiplicity(catalog, x => OccasionMatches(filter, x), o);
  }

  /** Two filters other than "all" that differ only in letter case show the
      same cards. */
  lemma FilterIgnoresCase(catalog: seq<Outfit>, f: string, g: string)
    requires f != AllFilter && g != AllFilter
    requires Lower(f) == Lower(g)
    ensures FilterByOccasion(catalog, f) == FilterByOccasion(catalog, g)
  {
    FilterAgreeing(catalog, o => OccasionMatches(f, o), o => OccasionMatches(g, o));
  }

  /** The "all" test itself is case-sensitive: "All" is an ordinary filter
      value, and no outfit's occasion is "all". */
  lemma AllFilterIsCaseSensitive()
    ensures Lower("All") == Lower(AllFilter)
    ensures VisibleOutfits(AllFilter) == MockOutfits
    ensures VisibleOutfits("All") == []
  {
    var p := o => OccasionMatches("All", o);
    assert Lower("All") == "all";
    assert forall o | o in MockOutfits :: |Lower(o.occasion)| != 3;
    CatalogOccasionsLowered();
    CatalogFilter(p);
  }

  /** The occasion tags of the catalog, lowered. */
  lemma CatalogOccasionsLowered()
    ensures Lower(CasualChic.occasion) == "casual"
    ensures Lower(ProfessionalPower.occasion) == "work"
    ensures Lower(DateNightElegance.occasion) == "date night"
    ensures Lower(BohemianVibes.occasion) == "creative"
  {
  }

  /** The three occasion badges each show exactly one outfit. */
  lemma FilterButtonsSelectOneOutfit()
    ensures VisibleOutfits("work") == [ProfessionalPower]
    ensures VisibleOutfits("casual") == [CasualChic]
    ensures VisibleOutfits("date night") == [DateNightElegance]
  {
    CatalogOccasionsLowered();
    assert Lower("work") == "work";
    assert Lower("casual") == "casual";
    assert Lower("date night") == "date night";
    CatalogFilter(o => OccasionMatches("work", o));
    CatalogFilter(o => OccasionMatches("casual", o));
    CatalogFilter(o => OccasionMatches("date night", o));
  }

  /** Filtering the four-record catalog, record by record. */
  lemma CatalogFilter(p: Outfit -> bool)
    ensures Filter(MockOutfits, p)
         == ((if p(CasualChic) then [CasualChic] else [])
          + (if p(ProfessionalPower) then [ProfessionalPower] else []))
          + ((if p(DateNightElegance) then [DateNightElegance] else [])
          + (if p(BohemianVibes) then [BohemianVibes] else []))
  {
    FilterQuad(CasualChic, ProfessionalPower, DateNightElegance, BohemianVibes, p);
  }

  /** The fourth outfit ("Creative") is shown under a filter iff the filter is
      "all" or lowers to "creative"; no filter badge sets such a value, so
      among the badges only "All Occasions" shows it. */
  lemma CreativeOutfitOnlyUnderAll(filter: string)
    ensures BohemianVibes in VisibleOutfits(filter) <==> filter == AllFilter || Lower(filter) == "creative"
    ensures filter in FilterButtons ==> (BohemianVibes in VisibleOutfits(filter) <==> filter == AllFilter)
  {
  }

  /** The component's state: the active filter and the liked outfit ids. */
  class OutfitSuggestions {
    var selectedFilter: string
    var likedOutfits: seq<int>

    /** The liked list never holds an id twice. */
    ghost predicate Valid()
      reads this
    {
      NoDuplicates(likedOutfits)
    }

    constructor ()
      ensures Valid()
      ensures selectedFilter == AllFilter && likedOutfits == []
    {
      selectedFilter := AllFilter;
      likedOutfits := [];
    }

    /** Clicking a filter badge. */
    method SetFilter(filter: string)
      modifies this`selectedFilter
      ensures selectedFilter == filter
    {
      selectedFilter := filter;
    }

    /** The cards `filteredOutfits` shows for the active filter. */
    function FilteredOutfits(): (r: seq<Outfit>)
      reads this
      ensures selectedFilter == AllFilter ==> r == MockOutfits
      ensures forall o | o in r :: o in MockOutfits
      ensures selectedFilter != AllFilter ==>
        forall o | o in MockOutfits :: (o in r <==> Lower(o.occasion) == Lower(selectedFilter))
    {
      VisibleOutfits(selectedFilter)
    }

    /** `isLiked` for the card of outfit `outfitId`: some position of the
        liked list holds the id. */
    predicate IsLiked(outfitId: int): (liked: bool)
      reads this
      ensures liked <==> exists i | 0 <= i < |likedOutfits| :: likedOutfits[i] == outfitId
    {
      outfitId in likedOutfits
    }

    /** Clicking the heart on a card: the card's liked state flips and every
        other card's stays as it was. */
    method ToggleLike(outfitId: int)
      requires Valid()
      modifies this`likedOutfits
      ensures Valid()
      ensures likedOutfits == Toggle(old(likedOutfits), outfitId)
      ensures IsLiked(outfitId) <==> !old(IsLiked(outfitId))
      ensures forall other | other != outfitId :: IsLiked(other) <==> old(IsLiked(other))
    {
      ToggleNoDuplicates(likedOutfits, outfitId);
      likedOutfits := Toggle(likedOutfits, outfitId);
    }
  }
}
