# Kaufland offer scraper — extraction model

The scraper loads the Kaufland offers overview page in a headless browser,
parses the rendered HTML, finds every offer tile (`a.k-product-tile`), and
writes one JSON object per usable tile to `angebote.json`. This project
models the part of `scrape_kaufland_offers` that runs after the tiles are
found:

- the `get_text` helper, which yields `None` when a tile has no matching element inside it and the element's stripped text otherwise;
- the per-tile loop, which reads title, subtitle, price, old price and unit price;
- the filter `if title and price`, with Python truthiness: both `None` and `""` are rejected;
- the record built for a kept tile: `marke`, `produkt`, `preis`, `alter_preis`, `einheit`. The optional fields default through `x or ''` / `x or 'N/A'`;
- the early return when no tile is found, as distinct from writing an empty list when tiles were found but all were rejected.

A tile is represented by what the parser's `find` answers for each of the
five (tag, class) selectors the scraper queries (`Scraper.Tile`), and an
element's text is taken as already stripped. The extraction loop is the
method `Scraper.ScrapeOffers`. It appends to a local list. Its loop
invariant ties the list built so far to the specification function
`Scraper.Extracted`, applied to the tiles already visited. The lemmas state
what `Extracted` guarantees.

The script reads a single page view. It does not switch date tabs, expand
"show more" sections or deduplicate offers, and it emits no `kcard_preis` or
`gueltig_ab` field, so the model has none of these.

The five `get_text` calls of one tile (scraper.py:58-62) are `Scraper.ReadTile`,
and the filter `title and price` (scraper.py:65) is `Scraper.Keeps`. Both are
helpers used by `Scraper.Extracted` and `Scraper.ScrapeOffers`.

## Model

| member | source | states |
|---|---|---|
| `Scraper.GetText` | scraper.py:53-55 | the result is absent exactly when the tile has no element for the selector; otherwise it is that element's (stripped) text |
| `Scraper.Or` | scraper.py:68-71 | Python `s or default`: the text when it is present and non-empty, otherwise exactly the default; never empty unless the default is |
| `Scraper.MakeOffer` | scraper.py:66-72 | `marke` and `preis` are the title and price copied unchanged and non-empty; `produkt`/`einheit` are the subtitle/unit price when truthy, else `''`; `alter_preis` is the old price when truthy, else `'N/A'`, so never empty |
| `Scraper.Extracted` | scraper.py:50-72 | the offer list is no longer than the tile list, and every record has non-empty `marke`, `preis` and `alter_preis` |
| `Scraper.ExtractedAppend` | scraper.py:51-72 | each tile is handled on its own: extracting a concatenation of tile lists gives the concatenation of the results |
| `Scraper.ExtractedLength` | scraper.py:51-66 | the number of records equals the number of tiles with truthy title and price, counted independently: kept tiles are never dropped or duplicated |
| `Scraper.KeptIndicesAreKeptPositions` | scraper.py:64-65 | the selected tile positions are in range, strictly increasing, and a position is selected if and only if its tile has truthy title and price |
| `Scraper.ExtractedIsOrderedSelection` | scraper.py:50-72 | the k-th record is the record built from the k-th selected tile, so the output keeps tile order and is a one-to-one map of the kept subsequence |
| `Scraper.NoKeptTileYieldsNoOffer` | scraper.py:64-77 | when no tile passes the title-and-price check, the list handed to output is empty |
| `Scraper.ScrapeOffers` | scraper.py:43-77 | an empty tile list gives the early "no tiles" outcome; any non-empty tile list gives the written outcome carrying exactly the extracted offer list, even when that list is empty |

## Left out

- Browser control (launch, navigation, waiting for `.k-product-tile`, reading the page content, closing): this is foreign I/O with timeouts, so the tile list is a parameter of `ScrapeOffers`.
- HTML parsing, `find_all` over the document, class matching in `find`, and whitespace stripping. A tile is the map from each queried selector to the element `find` returns.
- The JSON serialisation and the file write: the `Written` outcome carries the list that is handed to `json.dump`. Key order and `ensure_ascii`/indentation are not modelled.
- Console messages, the `PlaywrightTimeoutError` handler, the catch-all exception handler and the `__main__` entry point. These are logging and exception plumbing around the extraction.
