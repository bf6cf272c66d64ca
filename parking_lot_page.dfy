/** The helpers of the parking-lot list page: the availability badge, text
    truncation for lot names, the cheapest lot, and the search-box filter. */
module ParkingCatalog {
  import opened Common

  /** A lot as the list page shows it (its catalogue entry). */
  datatype Lot = Lot(id: string, name: string, pricePerHour: real, availableSpots: int)

  datatype Badge = Green | Yellow | Red {
    /** The style classes the page puts on the badge. */
    function ClassName(): string {
      match this
      case Green => "bg-green-100 text-green-800"
      case Yellow => "bg-yellow-100 text-yellow-800"
      case Red => "bg-red-100 text-red-800"
    }

    /** Badges ordered from scarce (0) to plentiful (2). */
    function Rank(): nat {
      match this
      case Red => 0
      case Yellow => 1
      case Green => 2
    }
  }

  /** The badge for a number of available spots: more than 20 is green, more
      than 5 is yellow, anything else red. */
  function AvailabilityBadge(spots: int): (b: Badge)
    ensures b == Green <==> spots > 20
    ensures b == Yellow <==> 5 < spots <= 20
    ensures b == Red <==> spots <= 5
  {
    if spots > 20 then Green else if spots > 5 then Yellow else Red
  }

  /** More available spots never give a scarcer badge. */
  lemma BadgeMonotone(fewer: int, more: int)
    requires fewer <= more
    ensures AvailabilityBadge(fewer).Rank() <= AvailabilityBadge(more).Rank()
  {
  }

  /** `truncateText`: a text longer than `maxLength` keeps its first
      `maxLength` characters followed by an ellipsis. */
  function TruncateText(text: string, maxLength: nat): (r: string)
    ensures |text| <= maxLength ==> r == text
    ensures |text| > maxLength ==> |r| == maxLength + 3 && IsPrefix(r[..maxLength], text) && r[maxLength..] == "..."
  {
    if |text| > maxLength then text[..maxLength] + "..." else text
  }

  /** The position `getCheapestLot` lands on: a left-to-right reduction that
      replaces the current pick only for a strictly lower price, so the
      earliest of several equally cheap lots wins. The page calls it on a
      non-empty list; `reduce` without a seed would throw on an empty one. */
  function CheapestIndex(lots: seq<Lot>): (k: nat)
    requires |lots| > 0
    ensures k < |lots|
    ensures forall j :: 0 <= j < |lots| ==> lots[k].pricePerHour <= lots[j].pricePerHour
    ensures forall j :: 0 <= j < k ==> lots[j].pricePerHour > lots[k].pricePerHour
  {
    if |lots| == 1 then 0
    else
      var k := CheapestIndex(lots[..|lots| - 1]);
      if lots[|lots| - 1].pricePerHour < lots[k].pricePerHour then |lots| - 1 else k
  }

  function CheapestLot(lots: seq<Lot>): Lot
    requires |lots| > 0
  {
    lots[CheapestIndex(lots)]
  }

  /** The two properties of `CheapestIndex` pin the result down: any position
      holding a minimal price with no equally cheap lot before it is that one. */
  lemma CheapestIsUnique(lots: seq<Lot>, k: nat)
    requires k < |lots|
    requires forall j :: 0 <= j < |lots| ==> lots[k].pricePerHour <= lots[j].pricePerHour
    requires forall j :: 0 <= j < k ==> lots[j].pricePerHour > lots[k].pricePerHour
    ensures CheapestIndex(lots) == k
  {
  }

  /** The search box: the lower-cased name contains the lower-cased query. */
  predicate NameMatches(lot: Lot, query: string) {
    Includes(ToLower(lot.name), ToLower(query))
  }

  function FilterByName(lots: seq<Lot>, query: string): seq<Lot> {
    Filter(lots, (lot: Lot) => NameMatches(lot, query))
  }

  /** The filter keeps exactly the matching lots, in their original order. */
  lemma FilterByNameSpec(lots: seq<Lot>, more: seq<Lot>, query: string)
    ensures forall i :: 0 <= i < |FilterByName(lots, query)| ==>
              FilterByName(lots, query)[i] in lots && NameMatches(FilterByName(lots, query)[i], query)
    ensures forall i :: 0 <= i < |lots| && NameMatches(lots[i], query) ==> lots[i] in FilterByName(lots, query)
    ensures FilterByName(lots + more, query) == FilterByName(lots, query) + FilterByName(more, query)
  {
    FilterAppend(lots, more, (lot: Lot) => NameMatches(lot, query));
  }

  /** An empty query keeps every lot. */
  lemma EmptyQueryKeepsAll(lots: seq<Lot>)
    ensures FilterByName(lots, "") == lots
  {
    forall i | 0 <= i < |lots|
      ensures NameMatches(lots[i], "")
    {
      assert IsPrefix(ToLower(""), ToLower(lots[i].name));
    }
    FilterAll(lots, (lot: Lot) => NameMatches(lot, ""));
  }

  lemma {:induction false} ToLowerIdempotent(s: string)
    ensures ToLower(ToLower(s)) == ToLower(s)
  {
    assert forall i :: 0 <= i < |s| ==> LowerChar(LowerChar(s[i])) == LowerChar(s[i]);
  }

  /** The case of the query does not matter. */
  lemma {:induction false} QueryCaseIrrelevant(lots: seq<Lot>, query: string)
    ensures FilterByName(lots, ToLower(query)) == FilterByName(lots, query)
  {
    ToLowerIdempotent(query);
    if lots != [] {
      QueryCaseIrrelevant(lots[1..], query);
    }
  }
}
