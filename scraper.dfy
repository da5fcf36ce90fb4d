/**
 * The offer extraction of the Kaufland scraper: from the ordered list of
 * offer tiles found in the rendered page to the list of offer records that
 * is handed to the JSON output.
 *
 * The browser and the HTML parser are not modelled. A tile is given by what
 * the parser's `find` answers for each of the five selectors the scraper
 * queries, and the text of a found element is taken as already stripped.
 */
module Scraper {
  import opened Wrappers

  /** An element query: a tag name and a CSS class. */
  datatype Selector = Selector(tag: string, className: string)

  const TitleSelector := Selector("div", "k-product-tile__title")
  const SubtitleSelector := Selector("div", "k-product-tile__subtitle")
  const PriceSelector := Selector("div", "k-price-tag__price")
  const OldPriceSelector := Selector("span", "k-price-tag__old-price-line-through")
  const UnitPriceSelector := Selector("div", "k-product-tile__unit-price")

  /** An element inside a tile; `text` is its text with surrounding whitespace stripped. */
  datatype Element = Element(text: string)

  /**
   * An offer tile: for each selector that has a match, the first matching
   * element inside the tile (a descendant at any depth, in document order).
   * A selector that is not a key has no match in the tile.
   */
  datatype Tile = Tile(found: map<Selector, Element>)

  /** The parser's `element.find(tag, class_=...)`: the first matching element inside the tile, or nothing. */
  function Find(tile: Tile, sel: Selector): (e: Option<Element>)
  {
    if sel in tile.found then Some(tile.found[sel]) else None
  }

  /** The scraper's `get_text` helper. */
  function GetText(tile: Tile, sel: Selector): (r: Option<string>)
    ensures r.None? <==> sel !in tile.found
    ensures r.Some? ==> r.value == tile.found[sel].text
  {
    match Find(tile, sel)
    case None => None
    case Some(e) => Some(e.text)
  }

  /** The five optional texts the scraper reads from one tile. */
  datatype TileText = TileText(
    title: Option<string>,
    subtitle: Option<string>,
    price: Option<string>,
    oldPrice: Option<string>,
    unitPrice: Option<string>)

  function ReadTile(tile: Tile): (t: TileText)
  {
    TileText(
      GetText(tile, TitleSelector),
      GetText(tile, SubtitleSelector),
      GetText(tile, PriceSelector),
      GetText(tile, OldPriceSelector),
      GetText(tile, UnitPriceSelector))
  }

  /** Python truthiness of an optional string: neither `None` nor `""`. */
  predicate Truthy(s: Option<string>)
  {
    s.Some? && s.value != ""
  }

  /** Python's `s or default` on an optional string. */
  function Or(s: Option<string>, default: string): (r: string)
    ensures Truthy(s) ==> r == s.value
    ensures !Truthy(s) ==> r == default
    ensures r == "" ==> default == ""
  {
    if s.None? || s.value == "" then default else s.value
  }

  /** The filter of the extraction loop: `if title and price`. */
  predicate Keeps(t: TileText)
  {
    Truthy(t.title) && Truthy(t.price)
  }

  /** One output record; the field names are those of the JSON objects written. */
  datatype Offer = Offer(
    marke: string,
    produkt: string,
    preis: string,
    alter_preis: string,
    einheit: string)

  const NotAvailable := "N/A"

  /** The record built for a kept tile. */
  function MakeOffer(t: TileText): (r: Offer)
    requires Keeps(t)
    ensures r.marke == t.title.value && r.preis == t.price.value
    ensures r.marke != "" && r.preis != ""
    ensures Truthy(t.subtitle) ==> r.produkt == t.subtitle.value
    ensures !Truthy(t.subtitle) ==> r.produkt == ""
    ensures Truthy(t.oldPrice) ==> r.alter_preis == t.oldPrice.value
    ensures !Truthy(t.oldPrice) ==> r.alter_preis == NotAvailable
    ensures r.alter_preis != ""
    ensures Truthy(t.unitPrice) ==> r.einheit == t.unitPrice.value
    ensures !Truthy(t.unitPrice) ==> r.einheit == ""
  {
    Offer(t.title.value, Or(t.subtitle, ""), t.price.value, Or(t.oldPrice, NotAvailable), Or(t.unitPrice, ""))
  }

  /**
   * The offers extracted from `tiles`, in tile order: one record per tile
   * whose title and price are both truthy. Defined on the last tile so that
   * it follows the loop that builds the list front to back.
   */
  function Extracted(tiles: seq<Tile>): (r: seq<Offer>)
    ensures |r| <= |tiles|
    ensures forall o :: o in r ==> o.marke != "" && o.preis != "" && o.alter_preis != ""
    decreases |tiles|
  {
    if tiles == [] then []
    else
      var t := ReadTile(tiles[|tiles| - 1]);
      Extracted(tiles[..|tiles| - 1]) + (if Keeps(t) then [MakeOffer(t)] else [])
  }

  /** The number of tiles with a truthy title and a truthy price, counted from the front. */
  function CountKept(tiles: seq<Tile>): (n: nat)
  {
    if tiles == [] then 0
    else (if Keeps(ReadTile(tiles[0])) then 1 else 0) + CountKept(tiles[1..])
  }

  /** The positions of the kept tiles, in increasing order. */
  ghost function KeptIndices(tiles: seq<Tile>): (idx: seq<nat>)
    decreases |tiles|
  {
    if tiles == [] then []
    else
      KeptIndices(tiles[..|tiles| - 1]) + (if Keeps(ReadTile(tiles[|tiles| - 1])) then [|tiles| - 1] else [])
  }

  /** Extraction distributes over concatenation of tile lists. */
  lemma {:induction false} ExtractedAppend(a: seq<Tile>, b: seq<Tile>)
    ensures Extracted(a + b) == Extracted(a) + Extracted(b)
    decreases |b|
  {
    if b == [] {
      assert a + b == a;
    } else {
      var b' := b[..|b| - 1];
      assert (a + b)[..|a + b| - 1] == a + b';
      assert (a + b)[|a + b| - 1] == b[|b| - 1];
      ExtractedAppend(a, b');
    }
  }

  /** No kept tile is dropped or duplicated: one record per kept tile. */
  lemma {:induction false} ExtractedLength(tiles: seq<Tile>)
    ensures |Extracted(tiles)| == CountKept(tiles)
    decreases |tiles|
  {
    if tiles != [] {
      assert tiles == [tiles[0]] + tiles[1..];
      ExtractedAppend([tiles[0]], tiles[1..]);
      assert [tiles[0]][..0] == [];
      ExtractedLength(tiles[1..]);
    }
  }

  /** The kept positions are in range, strictly increasing, and exactly those of the kept tiles. */
  lemma {:induction false} KeptIndicesAreKeptPositions(tiles: seq<Tile>)
    ensures forall k :: 0 <= k < |KeptIndices(tiles)| ==> KeptIndices(tiles)[k] < |tiles|
    ensures forall k, l :: 0 <= k < l < |KeptIndices(tiles)| ==> KeptIndices(tiles)[k] < KeptIndices(tiles)[l]
    ensures forall j :: 0 <= j < |tiles| ==> (Keeps(ReadTile(tiles[j])) <==> j in KeptIndices(tiles))
    decreases |tiles|
  {
    if tiles != [] {
      var n := |tiles| - 1;
      var init := tiles[..n];
      KeptIndicesAreKeptPositions(init);
      var idx := KeptIndices(init);
      var tail: seq<nat> := if Keeps(ReadTile(tiles[n])) then [n] else [];
      assert KeptIndices(tiles) == idx + tail;
      forall j | 0 <= j < |tiles|
        ensures Keeps(ReadTile(tiles[j])) <==> j in idx + tail
      {
        if j < n {
          assert tiles[j] == init[j];
        }
      }
    }
  }

  /**
   * The output is the ordered selection of the kept tiles, each mapped to
   * its record: the i-th record comes from the i-th kept tile (whose
   * position KeptIndicesAreKeptPositions describes).
   */
  lemma {:induction false} ExtractedIsOrderedSelection(tiles: seq<Tile>)
    ensures |Extracted(tiles)| == |KeptIndices(tiles)|
    ensures forall k :: 0 <= k < |KeptIndices(tiles)| ==>
      KeptIndices(tiles)[k] < |tiles| &&
      Keeps(ReadTile(tiles[KeptIndices(tiles)[k]])) &&
      Extracted(tiles)[k] == MakeOffer(ReadTile(tiles[KeptIndices(tiles)[k]]))
    decreases |tiles|
  {
    if tiles != [] {
      var n := |tiles| - 1;
      var init := tiles[..n];
      ExtractedIsOrderedSelection(init);
      var idx := KeptIndices(init);
      var t := ReadTile(tiles[n]);
      var tail: seq<nat> := if Keeps(t) then [n] else [];
      var out: seq<Offer> := if Keeps(t) then [MakeOffer(t)] else [];
      assert KeptIndices(tiles) == idx + tail;
      assert Extracted(tiles) == Extracted(init) + out;
      forall k | 0 <= k < |idx + tail|
        ensures (idx + tail)[k] < |tiles| && Keeps(ReadTile(tiles[(idx + tail)[k]]))
        ensures Extracted(tiles)[k] == MakeOffer(ReadTile(tiles[(idx + tail)[k]]))
      {
        if k < |idx| {
          assert tiles[idx[k]] == init[idx[k]];
        }
      }
    }
  }

  /** A non-empty tile list whose tiles are all rejected yields the empty offer list. */
  lemma {:induction false} NoKeptTileYieldsNoOffer(tiles: seq<Tile>)
    requires forall j :: 0 <= j < |tiles| ==> !Keeps(ReadTile(tiles[j]))
    ensures Extracted(tiles) == []
    decreases |tiles|
  {
    if tiles != [] {
      var init := tiles[..|tiles| - 1];
      assert forall j :: 0 <= j < |init| ==> init[j] == tiles[j];
      NoKeptTileYieldsNoOffer(init);
    }
  }

  /** What one run hands on: nothing (no tile found), or the list written to the output file. */
  datatype Outcome = NoTilesFound | Written(offers: seq<Offer>)

  /**
   * `scrape_kaufland_offers` from the tile list on: an empty tile list returns
   * early; otherwise every tile is read and the kept ones are appended, in
   * order, to the list that is written.
   */
  method ScrapeOffers(tiles: seq<Tile>) returns (outcome: Outcome)
    ensures outcome == NoTilesFound <==> tiles == []
    ensures tiles != [] ==> outcome == Written(Extracted(tiles))
  {
    if |tiles| == 0 {
      return NoTilesFound;
    }
    var extractedOffers: seq<Offer> := [];
    for i := 0 to |tiles|
      invariant extractedOffers == Extracted(tiles[..i])
    {
      var tile := tiles[i];
      var title := GetText(tile, TitleSelector);
      var subtitle := GetText(tile, SubtitleSelector);
      var price := GetText(tile, PriceSelector);
      var oldPrice := GetText(tile, OldPriceSelector);
      var unit := GetText(tile, UnitPriceSelector);
      assert tiles[..i + 1][..i] == tiles[..i];
      if Truthy(title) && Truthy(price) {
        extractedOffers := extractedOffers + [Offer(
          title.value,
          Or(subtitle, ""),
          price.value,
          Or(oldPrice, NotAvailable),
          Or(unit, ""))];
      }
    }
    assert tiles[..|tiles|] == tiles;
    return Written(extractedOffers);
  }
}
