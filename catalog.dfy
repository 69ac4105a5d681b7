/** build_catalog: lays product records out as the story of an A4 document,
    a header followed by bands of product cards.

    The story is returned rather than handed to the PDF engine. Whether a file
    exists and whether the image loader accepts it are the oracles `fileExists`
    and `loads`. */
module Catalog {
  import opened Wrappers

  /** One product record as the caller hands it over. */
  datatype Product = Product(
    sku: string,
    name: string,
    description: Option<string>,
    price: Option<real>,
    images: seq<string>)

  /** One flowable of a product card. */
  datatype Part =
    | Picture(path: string)          // the first image, sized to the column
    | NameLine(name: string)         // the name in bold, Heading4
    | SkuLine(text: string)          // "SKU: {sku}"
    | PriceLine(price: real)         // "Fiyat: {price} ₺"
    | DescriptionLine(text: string)  // the description, cut to its first 240 characters

  datatype Card = Card(parts: seq<Part>)

  /** One element of the story. */
  datatype Element =
    | Logo(path: string)
    | Title(company: string)
    | Spacer
    | Band(cards: seq<Card>, padded: bool)  // padded: the full-row table style with bottom padding

  const DescriptionLimit: nat := 240

  /** Columns per band: 2 for "classic", 3 for "modern", 1 for any other design. */
  function ColumnCount(design: string): (cols: nat)
    ensures 1 <= cols <= 3
    ensures cols == 2 <==> design == "classic"
    ensures cols == 3 <==> design == "modern"
  {
    if design == "classic" then 2 else if design == "modern" then 3 else 1
  }

  /** `path and os.path.exists(path)` holds and loading the image does not raise. */
  predicate ImageShown(path: string, fileExists: string -> bool, loads: string -> bool) {
    path != [] && fileExists(path) && loads(path)
  }

  predicate ShowsLogo(showLogo: bool, logoPath: Option<string>, fileExists: string -> bool, loads: string -> bool) {
    showLogo && logoPath.Some? && ImageShown(logoPath.value, fileExists, loads)
  }

  predicate ShowsTitle(showCompany: bool, companyName: string) {
    showCompany && companyName != []
  }

  function HeaderElements(showLogo: bool, logoPath: Option<string>, showCompany: bool, companyName: string,
                          fileExists: string -> bool, loads: string -> bool): seq<Element>
  {
    (if ShowsLogo(showLogo, logoPath, fileExists, loads) then [Logo(logoPath.value)] else [])
    + (if ShowsTitle(showCompany, companyName) then [Title(companyName)] else [])
    + [Spacer]
  }

  /** The logo comes first exactly when it is shown, the title exactly when it is
      shown, the spacer always closes the header, and the header holds no band. */
  lemma HeaderElementsSpec(showLogo: bool, logoPath: Option<string>, showCompany: bool, companyName: string,
                           fileExists: string -> bool, loads: string -> bool)
    ensures var h := HeaderElements(showLogo, logoPath, showCompany, companyName, fileExists, loads);
      var logo := ShowsLogo(showLogo, logoPath, fileExists, loads);
      var title := ShowsTitle(showCompany, companyName);
      && |h| == 1 + (if logo then 1 else 0) + (if title then 1 else 0)
      && h[|h| - 1] == Spacer
      && (h[0].Logo? <==> logo)
      && (logo ==> h[0] == Logo(logoPath.value))
      && (Title(companyName) in h <==> title)
      && (forall k :: 0 <= k < |h| ==> !h[k].Band?)
      && (forall k :: 0 <= k < |h| && h[k].Logo? ==> logo)
  {
  }

  /** p['description'][:limit] */
  function Truncate(s: string, limit: nat): (r: string)
    ensures |r| <= limit && |r| <= |s| && r == s[..|r|]
    ensures |s| <= limit ==> r == s
    ensures |s| > limit ==> |r| == limit
  {
    if |s| <= limit then s else s[..limit]
  }

  predicate ShowsPicture(p: Product, fileExists: string -> bool, loads: string -> bool) {
    p.images != [] && ImageShown(p.images[0], fileExists, loads)
  }

  predicate ShowsDescription(p: Product) {
    p.description.Some? && p.description.value != []
  }

  /** The parts the loop body builds for one product. */
  function CardFor(p: Product, fileExists: string -> bool, loads: string -> bool): Card {
    Card(
      (if ShowsPicture(p, fileExists, loads) then [Picture(p.images[0])] else [])
      + [NameLine(p.name), SkuLine("SKU: " + p.sku)]
      + (if p.price.Some? then [PriceLine(p.price.value)] else [])
      + (if ShowsDescription(p) then [DescriptionLine(Truncate(p.description.value, DescriptionLimit))] else []))
  }

  /** Part order is picture, name, sku, price, description; the picture, price and
      description parts appear exactly when their conditions hold. */
  lemma CardLayout(p: Product, fileExists: string -> bool, loads: string -> bool)
    ensures var parts := CardFor(p, fileExists, loads).parts;
      var o := if ShowsPicture(p, fileExists, loads) then 1 else 0;
      var q := o + 2 + (if p.price.Some? then 1 else 0);
      && |parts| == q + (if ShowsDescription(p) then 1 else 0)
      && (ShowsPicture(p, fileExists, loads) ==> parts[0] == Picture(p.images[0]))
      && parts[o] == NameLine(p.name)
      && parts[o + 1] == SkuLine("SKU: " + p.sku)
      && (p.price.Some? ==> parts[o + 2] == PriceLine(p.price.value))
      && (ShowsDescription(p) ==> parts[q] == DescriptionLine(Truncate(p.description.value, DescriptionLimit)))
      && (forall k :: 0 <= k < |parts| && parts[k].Picture? ==> k == 0 && ShowsPicture(p, fileExists, loads))
      && (forall k :: 0 <= k < |parts| && parts[k].PriceLine? ==> p.price.Some?)
      && (forall k :: 0 <= k < |parts| && parts[k].DescriptionLine? ==> ShowsDescription(p))
  {
  }

  /** The description part holds at most 240 characters, all of a shorter description. */
  lemma DescriptionTruncation(p: Product, fileExists: string -> bool, loads: string -> bool)
    requires ShowsDescription(p)
    ensures var parts := CardFor(p, fileExists, loads).parts;
      var text := parts[|parts| - 1].text;
      && parts[|parts| - 1].DescriptionLine?
      && |text| <= DescriptionLimit
      && text == p.description.value[..|text|]
      && (|p.description.value| <= DescriptionLimit ==> text == p.description.value)
  {
  }

  /** The loop body that composes one card, step by step. */
  method BuildCard(p: Product, fileExists: string -> bool, loads: string -> bool) returns (card: Card)
    ensures card == CardFor(p, fileExists, loads)
  {
    var parts: seq<Part> := [];
    var imgPath: Option<string> := None;
    if p.images != [] {
      imgPath := Some(p.images[0]);
    }
    if imgPath.Some? && imgPath.value != [] && fileExists(imgPath.value) {
      if loads(imgPath.value) {
        parts := parts + [Picture(imgPath.value)];
      }
      // otherwise loading raised and the card goes on without a picture
    }
    parts := parts + [NameLine(p.name)];
    parts := parts + [SkuLine("SKU: " + p.sku)];
    if p.price.Some? {
      parts := parts + [PriceLine(p.price.value)];
    }
    if p.description.Some? && p.description.value != [] {
      parts := parts + [DescriptionLine(Truncate(p.description.value, DescriptionLimit))];
    }
    card := Card(parts);
  }

  function Cards(rows: seq<Product>, fileExists: string -> bool, loads: string -> bool): (cards: seq<Card>)
    ensures |cards| == |rows|
    ensures forall k :: 0 <= k < |rows| ==> cards[k] == CardFor(rows[k], fileExists, loads)
  {
    if rows == [] then [] else [CardFor(rows[0], fileExists, loads)] + Cards(rows[1..], fileExists, loads)
  }

  // ---------------------------------------------------------------- bands

  /** The cards flushed `cols` at a time into padded bands, the remainder into one last plain band. */
  function Bands(cards: seq<Card>, cols: nat): seq<Element>
    requires cols >= 1
    decreases |cards|
  {
    if cards == [] then []
    else if |cards| < cols then [Band(cards, false)]
    else [Band(cards[..cols], true)] + Bands(cards[cols..], cols)
  }

  /** The cards of a story's bands, in story order. */
  function Flatten(story: seq<Element>): seq<Card> {
    if story == [] then [] else (if story[0].Band? then story[0].cards else []) + Flatten(story[1..])
  }

  lemma {:induction false} FlattenAppend(a: seq<Element>, b: seq<Element>)
    ensures Flatten(a + b) == Flatten(a) + Flatten(b)
  {
    if a != [] {
      var head := if a[0].Band? then a[0].cards else [];
      assert (a + b)[0] == a[0];
      assert (a + b)[1..] == a[1..] + b;
      assert Flatten(a + b) == head + Flatten(a[1..] + b);
      FlattenAppend(a[1..], b);
      assert Flatten(a) == head + Flatten(a[1..]);
    } else {
      assert a + b == b;
    }
  }

  /** Flattening the bands gives back the cards in input order. */
  lemma {:induction false} BandsFlatten(cards: seq<Card>, cols: nat)
    requires cols >= 1
    ensures Flatten(Bands(cards, cols)) == cards
    decreases |cards|
  {
    if |cards| >= cols {
      BandsFlatten(cards[cols..], cols);
      FlattenAppend([Band(cards[..cols], true)], Bands(cards[cols..], cols));
      assert cards == cards[..cols] + cards[cols..];
    }
  }

  /** Every band holds 1..cols cards and is padded exactly when full; every band
      but the last is full. */
  predicate WellBanded(bands: seq<Element>, cols: nat) {
    forall k :: 0 <= k < |bands| ==>
      && bands[k].Band?
      && 1 <= |bands[k].cards| <= cols
      && (bands[k].padded <==> |bands[k].cards| == cols)
      && (k < |bands| - 1 ==> bands[k].padded)
  }

  lemma {:induction false} BandsShape(cards: seq<Card>, cols: nat)
    requires cols >= 1
    ensures WellBanded(Bands(cards, cols), cols)
    decreases |cards|
  {
    if |cards| >= cols {
      BandsShape(cards[cols..], cols);
      var bands := Bands(cards, cols);
      var rest := Bands(cards[cols..], cols);
      assert bands == [Band(cards[..cols], true)] + rest;
      forall k | 0 <= k < |bands|
        ensures && bands[k].Band?
                && 1 <= |bands[k].cards| <= cols
                && (bands[k].padded <==> |bands[k].cards| == cols)
                && (k < |bands| - 1 ==> bands[k].padded)
      {
        if k > 0 {
          assert bands[k] == rest[k - 1];
          assert rest[k - 1].Band? && 1 <= |rest[k - 1].cards| <= cols;
        }
      }
    }
  }

  /** A full buffer is flushed as one padded band ahead of the rest. */
  lemma BandsFlush(data: seq<Card>, rest: seq<Card>, cols: nat)
    requires cols >= 1 && |data| == cols
    ensures Bands(data + rest, cols) == [Band(data, true)] + Bands(rest, cols)
  {
    assert (data + rest)[..cols] == data && (data + rest)[cols..] == rest;
  }

  /** One turn of the card loop keeps the story-so-far plus the bands still to
      come unchanged, whether or not the buffer fills up. */
  lemma BandsPush(bands: seq<Element>, data: seq<Card>, card: Card, rest: seq<Card>, cols: nat)
    requires cols >= 1 && |data| < cols
    ensures |data + [card]| == cols ==>
      bands + Bands(data + ([card] + rest), cols) == (bands + [Band(data + [card], true)]) + Bands([] + rest, cols)
    ensures |data + [card]| < cols ==>
      bands + Bands(data + ([card] + rest), cols) == bands + Bands((data + [card]) + rest, cols)
  {
    assert data + ([card] + rest) == (data + [card]) + rest;
    assert [] + rest == rest;
    if |data + [card]| == cols {
      BandsFlush(data + [card], rest, cols);
    }
  }

  /** A buffer shorter than a band is flushed as one plain band, if it holds anything. */
  lemma BandsTail(data: seq<Card>, cols: nat)
    requires cols >= 1 && |data| < cols
    ensures Bands(data, cols) == if data == [] then [] else [Band(data, false)]
  {
  }

  /** There are ceil(n / cols) bands. */
  lemma {:induction false} BandsCount(cards: seq<Card>, cols: nat)
    requires cols >= 1
    ensures |Bands(cards, cols)| == (|cards| + cols - 1) / cols
    decreases |cards|
  {
    var n := |cards|;
    if n == 0 {
      assert (n + cols - 1) / cols == 0;
    } else if n < cols {
      DivIsOne(n + cols - 1, cols);
    } else {
      var rest := cards[cols..];
      BandsCount(rest, cols);
      assert |rest| + cols - 1 == n - 1;
      assert |Bands(cards, cols)| == 1 + |Bands(rest, cols)|;
      DivPlusOne(n - 1, cols);
      assert n + cols - 1 == (n - 1) + cols;
    }
  }

  lemma DivIsOne(x: nat, c: nat)
    requires 1 <= c <= x < 2 * c
    ensures x / c == 1
  {
  }

  lemma DivPlusOne(m: nat, c: nat)
    requires c >= 1
    ensures (m + c) / c == m / c + 1
  {
    var q, r := m / c, m % c;
    assert m + c == (q + 1) * c + r;
    DivUnique(m + c, c, q + 1, r);
  }

  /** Integer division is determined by quotient and remainder. */
  lemma DivUnique(x: int, c: int, q: int, r: int)
    requires c > 0 && 0 <= r < c && x == q * c + r
    ensures x / c == q
  {
    var q', r' := x / c, x % c;
    assert x == q' * c + r' && 0 <= r' < c;
    if q' > q {
      MulAtLeast(q' - q, c);
      assert false;
    } else if q' < q {
      MulAtLeast(q - q', c);
      assert false;
    }
  }

  lemma {:induction false} MulAtLeast(d: int, c: int)
    requires d >= 1 && c >= 0
    ensures d * c >= c
    decreases d
  {
    if d > 1 {
      MulAtLeast(d - 1, c);
      assert d * c == (d - 1) * c + c;
    }
  }

  /** Seven products make bands of 3+3+1 cards with "modern" and 2+2+2+1 with "classic". */
  lemma SevenProductsExample(cards: seq<Card>)
    requires |cards| == 7
    ensures Bands(cards, ColumnCount("modern"))
      == [Band(cards[..3], true), Band(cards[3..6], true), Band(cards[6..], false)]
    ensures Bands(cards, ColumnCount("classic"))
      == [Band(cards[..2], true), Band(cards[2..4], true), Band(cards[4..6], true), Band(cards[6..], false)]
  {
    assert cards[3..][..3] == cards[3..6] && cards[3..][3..] == cards[6..];
    assert Bands(cards[6..], 3) == [Band(cards[6..], false)];
    assert Bands(cards[3..], 3) == [Band(cards[3..6], true), Band(cards[6..], false)];
    assert cards[2..][..2] == cards[2..4] && cards[2..][2..] == cards[4..];
    assert cards[4..][..2] == cards[4..6] && cards[4..][2..] == cards[6..];
    assert Bands(cards[6..], 2) == [Band(cards[6..], false)];
    assert Bands(cards[4..], 2) == [Band(cards[4..6], true), Band(cards[6..], false)];
    assert Bands(cards[2..], 2) == [Band(cards[2..4], true), Band(cards[4..6], true), Band(cards[6..], false)];
  }

  // ---------------------------------------------------------------- the story

  /** The state of the card loop: the bands flushed so far and the row buffer. */
  datatype Layout = Layout(bands: seq<Element>, row: seq<Card>)

  /** One turn of the card loop: the card joins the buffer, and a full buffer is
      flushed as a padded band. */
  function Place(l: Layout, card: Card, cols: nat): Layout
    requires cols >= 1
  {
    var row := l.row + [card];
    if |row| == cols then Layout(l.bands + [Band(row, true)], []) else Layout(l.bands, row)
  }

  /** The loop state after the given cards. */
  function LayOutUpTo(cards: seq<Card>, cols: nat): Layout
    requires cols >= 1
    decreases |cards|
  {
    if cards == [] then Layout([], [])
    else Place(LayOutUpTo(cards[..|cards| - 1], cols), cards[|cards| - 1], cols)
  }

  /** After the loop, a non-empty buffer is flushed as a plain band. */
  function Close(l: Layout): seq<Element> {
    if l.row == [] then l.bands else l.bands + [Band(l.row, false)]
  }

  /** Part way through the cards, the bands flushed so far followed by the
      chunking of the buffer and the remaining cards is the chunking of all cards. */
  lemma {:induction false} LayOutUpToSpec(cards: seq<Card>, p: nat, cols: nat)
    requires cols >= 1 && p <= |cards|
    ensures |LayOutUpTo(cards[..p], cols).row| < cols
    ensures Bands(cards, cols)
      == LayOutUpTo(cards[..p], cols).bands + Bands(LayOutUpTo(cards[..p], cols).row + cards[p..], cols)
  {
    if p == 0 {
      assert cards[..p] == [] && cards[p..] == cards;
      assert LayOutUpTo(cards[..p], cols) == Layout([], []);
      assert [] + cards == cards;
      assert [] + Bands(cards, cols) == Bands(cards, cols);
    } else {
      LayOutUpToSpec(cards, p - 1, cols);
      var l := LayOutUpTo(cards[..p - 1], cols);
      assert cards[..p][..p - 1] == cards[..p - 1];
      assert LayOutUpTo(cards[..p], cols) == Place(l, cards[p - 1], cols);
      assert cards[p - 1..] == [cards[p - 1]] + cards[p..];
      BandsPush(l.bands, l.row, cards[p - 1], cards[p..], cols);
    }
  }

  /** The card loop and the chunking definition agree. */
  lemma LayOutBands(cards: seq<Card>, cols: nat)
    requires cols >= 1
    ensures Close(LayOutUpTo(cards, cols)) == Bands(cards, cols)
  {
    LayOutUpToSpec(cards, |cards|, cols);
    var l := LayOutUpTo(cards, cols);
    assert cards[..|cards|] == cards && cards[|cards|..] == [];
    assert l.row + [] == l.row;
    BandsTail(l.row, cols);
  }

  /** The card loop of build_catalog: each card joins the row buffer, a full
      buffer is flushed as a padded band, and what is left is flushed last. */
  method LayOutCards(rows: seq<Product>, colCount: nat, fileExists: string -> bool, loads: string -> bool)
    returns (bands: seq<Element>)
    requires colCount >= 1
    ensures bands == Bands(Cards(rows, fileExists, loads), colCount)
  {
    ghost var all := Cards(rows, fileExists, loads);
    bands := [];
    var data: seq<Card> := [];
    var k := 0;
    assert all[..k] == [];
    while k < |rows|
      invariant k <= |rows| == |all|
      invariant Layout(bands, data) == LayOutUpTo(all[..k], colCount)
    {
      var card := BuildCard(rows[k], fileExists, loads);
      assert all[..k + 1][..k] == all[..k] && all[..k + 1][k] == card;
      data := data + [card];
      if |data| == colCount {
        bands := bands + [Band(data, true)];
        data := [];
      }
      k := k + 1;
    }
    assert all[..k] == all;
    LayOutBands(all, colCount);
    if data != [] {
      bands := bands + [Band(data, false)];
    }
  }

  /** The header of the story: the logo if it is shown, the company title if it
      is shown, then the spacer. */
  method BuildHeader(showLogo: bool, logoPath: Option<string>, showCompany: bool, companyName: string,
                     fileExists: string -> bool, loads: string -> bool)
    returns (header: seq<Element>)
    ensures header == HeaderElements(showLogo, logoPath, showCompany, companyName, fileExists, loads)
  {
    header := [];
    if showLogo && logoPath.Some? && logoPath.value != [] && fileExists(logoPath.value) {
      if loads(logoPath.value) {
        header := header + [Logo(logoPath.value)];
      }
      // otherwise loading raised and the header goes on without the logo
    }
    if showCompany && companyName != [] {
      header := header + [Title(companyName)];
    }
    header := header + [Spacer];
  }

  /** A header followed by the bands of the cards holds exactly those cards, in
      ceil(n / cols) bands. */
  lemma StoryShape(header: seq<Element>, cards: seq<Card>, cols: nat)
    requires cols >= 1
    requires forall k :: 0 <= k < |header| ==> !header[k].Band?
    ensures Flatten(header + Bands(cards, cols)) == cards
    ensures |header + Bands(cards, cols)| == |header| + (|cards| + cols - 1) / cols
  {
    BandsFlatten(cards, cols);
    BandsCount(cards, cols);
    FlattenAppend(header, Bands(cards, cols));
    HeaderHasNoCards(header);
    assert [] + cards == cards;
  }

  /** build_catalog up to doc.build: the header, then the cards band by band. */
  method BuildCatalog(rows: seq<Product>, design: string, showLogo: bool, logoPath: Option<string>,
                      showCompany: bool, companyName: string, fileExists: string -> bool, loads: string -> bool)
    returns (story: seq<Element>)
    ensures story == HeaderElements(showLogo, logoPath, showCompany, companyName, fileExists, loads)
                     + Bands(Cards(rows, fileExists, loads), ColumnCount(design))
    ensures rows == [] ==> story == HeaderElements(showLogo, logoPath, showCompany, companyName, fileExists, loads)
    ensures Flatten(story) == Cards(rows, fileExists, loads)
    ensures |story| == |HeaderElements(showLogo, logoPath, showCompany, companyName, fileExists, loads)|
                       + (|rows| + ColumnCount(design) - 1) / ColumnCount(design)
  {
    var header := BuildHeader(showLogo, logoPath, showCompany, companyName, fileExists, loads);
    var colCount := ColumnCount(design);
    var bands := LayOutCards(rows, colCount, fileExists, loads);
    story := header + bands;
    HeaderElementsSpec(showLogo, logoPath, showCompany, companyName, fileExists, loads);
    StoryShape(header, Cards(rows, fileExists, loads), colCount);
    if rows == [] {
      assert Cards(rows, fileExists, loads) == [];
      assert story == header + [];
    }
  }

  lemma {:induction false} HeaderHasNoCards(header: seq<Element>)
    requires forall k :: 0 <= k < |header| ==> !header[k].Band?
    ensures Flatten(header) == []
  {
    if header != [] {
      HeaderHasNoCards(header[1..]);
    }
  }
}
