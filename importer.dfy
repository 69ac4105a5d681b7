/** import_from_excel: turns the active sheet of a workbook and its embedded
    images into one record per data row.

    The workbook arrives already loaded, as a grid of cell values and a list of
    images. What the file system decides is an input: whether the upload
    directory could be created, and whether each image's bytes could be read
    and written out. Python's float() on a string is the oracle `parse`. */
module Importer {
  import opened Wrappers
  import opened Text

  /** The text str() gives for a value whose rendering the model does not compute. */
  type Printed = s: string | s != [] witness "0"

  /** A cell value as openpyxl hands it over with data_only=True. */
  datatype Cell =
    | Empty                          // None: a blank cell
    | Str(s: string)
    | Int(i: int)
    | Float(x: real, text: Printed)  // text: Python's str() of the float
    | Bool(b: bool)
    | Other(text: Printed, truthy: bool)  // dates, times, durations: rejected by float();
                                          // only a zero duration is falsy

  /** Python truthiness of a cell value. */
  predicate Truthy(c: Cell) {
    match c
    case Empty => false
    case Str(s) => s != []
    case Int(i) => i != 0
    case Float(x, _) => x != 0.0
    case Bool(b) => b
    case Other(_, t) => t
  }

  /** str(value). */
  function CellText(c: Cell): (r: string)
    ensures Truthy(c) ==> r != []
  {
    match c
    case Empty => "None"
    case Str(s) => s
    case Int(i) => IntToString(i)
    case Float(_, text) => text
    case Bool(b) => if b then "True" else "False"
    case Other(text, _) => text
  }

  /** float(value); None where Python raises. float() of a blank or all-whitespace
      string always raises; any other string is up to the oracle. */
  function ToFloat(c: Cell, parse: string -> Option<real>): Option<real> {
    match c
    case Empty => None
    case Str(s) => if Strip(s) == [] then None else parse(s)
    case Int(i) => Some(i as real)
    case Float(x, _) => Some(x)
    case Bool(b) => Some(if b then 1.0 else 0.0)
    case Other(_, _) => None
  }

  /** The active sheet: its extent and its non-blank cells keyed by (row, column), both 1-based. */
  datatype Sheet = Sheet(maxRow: nat, maxCol: nat, cells: map<(int, int), Cell>)

  /** ws.cell(row=row, column=col).value */
  function CellAt(ws: Sheet, row: int, col: int): Cell {
    if (row, col) in ws.cells then ws.cells[(row, col)] else Empty
  }

  /** An embedded image: the 0-based row of its anchor (None when reading the
      anchor raises) and whether reading its bytes and writing them out succeeds. */
  datatype SheetImage = SheetImage(anchorRow: Option<int>, extractable: bool)

  /** One record of the result list. */
  datatype ImportedRow = ImportedRow(
    sku: string,
    name: string,
    description: string,
    price: Option<real>,
    images: seq<string>)

  /** What aborts the import: the upload directory cannot be made, or float() raises on a price. */
  datatype ImportError = DirectoryNotCreated | PriceNotANumber(row: int)

  // ---------------------------------------------------------------- header map

  /** The key a row-1 cell gets: its trimmed, lower-cased text, or col<j> when it is not a string. */
  function HeaderKey(c: Cell, j: nat): string {
    if c.Str? then Lower(Strip(c.s)) else "col" + NatToString(j)
  }

  function ColumnKey(ws: Sheet, j: nat): string {
    HeaderKey(CellAt(ws, 1, j), j)
  }

  /** A label that spells a key up to the case of its ASCII letters, with any
      whitespace around it, has exactly that key. */
  lemma HeaderKeyMatches(w1: string, s: string, w2: string, key: string, j: nat)
    requires forall k :: 0 <= k < |w1| ==> IsSpace(w1[k])
    requires forall k :: 0 <= k < |w2| ==> IsSpace(w2[k])
    requires s != [] && !IsSpace(s[0]) && !IsSpace(s[|s| - 1])
    requires IsAscii(s) && |s| == |key| && forall k :: 0 <= k < |s| ==> AsciiLower(s[k]) == key[k]
    ensures HeaderKey(Str(w1 + s + w2), j) == key
  {
    StripPadding(w1, s, w2);
    assert TrimStart(s) == s;
    assert TrimEnd(s) == s;
    LowerAscii(s);
  }

  /** " SKU " is read as the key "sku". */
  lemma HeaderKeySkuExample()
    ensures HeaderKey(Str(" SKU "), 1) == "sku"
  {
    assert " " + "SKU" + " " == " SKU " by {
      var l := " " + "SKU" + " ";
      assert |l| == 5 && l[0] == ' ' && l[1] == 'S' && l[2] == 'K' && l[3] == 'U' && l[4] == ' ';
    }
    assert AsciiLower('S') == 's' && AsciiLower('K') == 'k' && AsciiLower('U') == 'u';
    HeaderKeyMatches(" ", "SKU", " ", "sku", 1);
  }

  /** "Fiyat" is read as the key "fiyat". */
  lemma HeaderKeyFiyatExample()
    ensures HeaderKey(Str("Fiyat"), 3) == "fiyat"
  {
    assert "" + "Fiyat" + "" == "Fiyat";
    assert AsciiLower('F') == 'f';
    HeaderKeyMatches("", "Fiyat", "", "fiyat", 3);
  }

  /** `{keys(1): 1, ..., keys(n): n}` built left to right, so a key that repeats
      keeps its last position. */
  function IndexUpTo(keys: nat -> string, n: nat): map<string, nat> {
    if n == 0 then map[] else IndexUpTo(keys, n - 1)[keys(n) := n]
  }

  /** Every key of 1..n is mapped, each mapped key sits at a position in 1..n that
      carries it, and no later position carries it: the last occurrence wins. */
  lemma {:induction false} IndexUpToSpec(keys: nat -> string, n: nat)
    ensures forall j :: 1 <= j <= n ==> keys(j) in IndexUpTo(keys, n) && IndexUpTo(keys, n)[keys(j)] >= j
    ensures forall key :: key in IndexUpTo(keys, n) ==>
      1 <= IndexUpTo(keys, n)[key] <= n && keys(IndexUpTo(keys, n)[key]) == key
    ensures forall key, j :: key in IndexUpTo(keys, n) && IndexUpTo(keys, n)[key] < j <= n ==> keys(j) != key
  {
    if n > 0 {
      IndexUpToSpec(keys, n - 1);
    }
  }

  /** The header text of each column of row 1. */
  function ColumnKeys(ws: Sheet): nat -> string {
    (j: nat) => ColumnKey(ws, j)
  }

  /** The header dict once the loop has seen columns 1..n of row 1. */
  function HeadersUpTo(ws: Sheet, n: nat): map<string, nat> {
    IndexUpTo(ColumnKeys(ws), n)
  }

  function Headers(ws: Sheet): map<string, nat> {
    HeadersUpTo(ws, ws.maxCol)
  }

  /** Every column's key is mapped, each key maps to a column in 1..n carrying
      that key, and no later column carries it: the last occurrence wins. */
  lemma HeadersUpToSpec(ws: Sheet, n: nat)
    ensures forall j :: 1 <= j <= n ==>
      ColumnKey(ws, j) in HeadersUpTo(ws, n) && HeadersUpTo(ws, n)[ColumnKey(ws, j)] >= j
    ensures forall key :: key in HeadersUpTo(ws, n) ==>
      1 <= HeadersUpTo(ws, n)[key] <= n && ColumnKey(ws, HeadersUpTo(ws, n)[key]) == key
    ensures forall key, j :: key in HeadersUpTo(ws, n) && HeadersUpTo(ws, n)[key] < j <= n ==>
      ColumnKey(ws, j) != key
  {
    assert forall j :: ColumnKeys(ws)(j) == ColumnKey(ws, j);
    IndexUpToSpec(ColumnKeys(ws), n);
  }

  /** The header loop over row 1. */
  method BuildHeaders(ws: Sheet) returns (headers: map<string, nat>)
    ensures headers == Headers(ws)
  {
    headers := map[];
    var j := 1;
    while j <= ws.maxCol
      invariant 1 <= j <= ws.maxCol + 1
      invariant headers == HeadersUpTo(ws, j - 1)
    {
      assert ColumnKeys(ws)(j) == ColumnKey(ws, j);
      headers := headers[ColumnKey(ws, j) := j];
      j := j + 1;
    }
  }

  const SkuAliases: seq<string> := ["sku", "stok_kodu"]
  const NameAliases: seq<string> := ["name", "\U{FC}r\U{FC}n ad\U{131}", "urun_adi"]
  const DescriptionAliases: seq<string> := ["description", "a\U{E7}\U{131}klama"]
  const PriceAliases: seq<string> := ["price", "fiyat"]

  /** A synthetic col<j> key never collides with a field alias. */
  lemma SyntheticKeyIsNoAlias(c: Cell, j: nat)
    requires !c.Str?
    ensures HeaderKey(c, j) !in SkuAliases + NameAliases + DescriptionAliases + PriceAliases
  {
    var key := HeaderKey(c, j);
    assert key[0] == 'c';
  }

  /** The nested get(col_name, row): the cell under the mapped column, None when the key is unmapped. */
  function Get(headers: map<string, nat>, ws: Sheet, key: string, row: int): Cell {
    if key in headers && headers[key] != 0 then CellAt(ws, row, headers[key]) else Empty
  }

  /** Mapped columns are never 0, so the `if j` test never hides a mapped column. */
  lemma GetSpec(ws: Sheet, key: string, row: int)
    ensures key !in Headers(ws) ==> Get(Headers(ws), ws, key, row) == Empty
    ensures key in Headers(ws) ==> Get(Headers(ws), ws, key, row) == CellAt(ws, row, Headers(ws)[key])
  {
    HeadersUpToSpec(ws, ws.maxCol);
  }

  // ---------------------------------------------------------------- field resolution

  /** Python's `c0 or c1 or ... or cn`: the first truthy operand, else the last one. */
  function Or(cs: seq<Cell>): Cell
    requires cs != []
  {
    if |cs| == 1 || Truthy(cs[0]) then cs[0] else Or(cs[1..])
  }

  lemma {:induction false} OrFirstTruthy(cs: seq<Cell>, k: nat)
    requires k < |cs| && Truthy(cs[k])
    requires forall j :: 0 <= j < k ==> !Truthy(cs[j])
    ensures Or(cs) == cs[k]
  {
    if k > 0 {
      OrFirstTruthy(cs[1..], k - 1);
    }
  }

  lemma {:induction false} OrNoneTruthy(cs: seq<Cell>)
    requires cs != []
    requires forall j :: 0 <= j < |cs| ==> !Truthy(cs[j])
    ensures Or(cs) == cs[|cs| - 1]
  {
    if |cs| > 1 {
      OrNoneTruthy(cs[1..]);
    }
  }

  /** The three-operand chain `a or b or c`. */
  lemma OrOfThree(a: Cell, b: Cell, c: Cell)
    ensures Or([a, b, c]) == if Truthy(a) then a else if Truthy(b) then b else c
  {
    assert [a, b, c][1..] == [b, c] && [b, c][1..] == [c];
    assert Or([c]) == c;
    assert Or([b, c]) == if Truthy(b) then b else Or([c]);
    assert Or([a, b, c]) == if Truthy(a) then a else Or([b, c]);
  }

  function Lookups(headers: map<string, nat>, ws: Sheet, aliases: seq<string>, row: int): seq<Cell> {
    seq(|aliases|, k requires 0 <= k < |aliases| => Get(headers, ws, aliases[k], row))
  }

  lemma LookupsOfTwo(headers: map<string, nat>, ws: Sheet, x: string, y: string, row: int)
    ensures Lookups(headers, ws, [x, y], row) == [Get(headers, ws, x, row), Get(headers, ws, y, row)]
  {
  }

  /** f"SKU-{n:05d}" */
  function SkuPlaceholder(n: nat): string {
    "SKU-" + ZeroPad(NatToString(n), 5)
  }

  /** f"Ürün {n}" */
  function NamePlaceholder(n: nat): string {
    "\U{DC}r\U{FC}n " + NatToString(n)
  }

  /** The sku placeholder is "SKU-" and at least five digits that read back as n. */
  lemma SkuPlaceholderSpec(n: nat)
    ensures |SkuPlaceholder(n)| >= 9 && SkuPlaceholder(n)[..4] == "SKU-"
    ensures AllDigits(SkuPlaceholder(n)[4..]) && DigitsValue(SkuPlaceholder(n)[4..]) == n
    ensures n < 100000 ==> |SkuPlaceholder(n)| == 9
  {
    var d := ZeroPad(NatToString(n), 5);
    assert SkuPlaceholder(n)[4..] == d;
    PaddedRoundTrip(n, 5);
    if n < 100000 {
      NatToStringShort(n, 5);
    }
  }

  lemma {:induction false} NatToStringShort(n: nat, w: nat)
    requires w >= 1 && n < Pow10(w)
    ensures |NatToString(n)| <= w
    decreases w
  {
    if n >= 10 {
      NatToStringShort(n / 10, w - 1);
    }
  }

  function Pow10(w: nat): nat {
    if w == 0 then 1 else 10 * Pow10(w - 1)
  }

  /** Data row 3 without any sku or name gets the placeholders of ordinal 2. */
  lemma PlaceholderExample()
    ensures SkuPlaceholder(3 - 1) == "SKU-00002"
    ensures NamePlaceholder(3 - 1) == "\U{DC}r\U{FC}n 2"
  {
    assert NatToString(2) == "2";
    assert Zeros(4) == "0000";
  }

  function SkuField(headers: map<string, nat>, ws: Sheet, i: int): string
    requires i >= 2
  {
    CellText(Or(Lookups(headers, ws, SkuAliases, i) + [Str(SkuPlaceholder(i - 1))]))
  }

  function NameField(headers: map<string, nat>, ws: Sheet, i: int): string
    requires i >= 2
  {
    CellText(Or(Lookups(headers, ws, NameAliases, i) + [Str(NamePlaceholder(i - 1))]))
  }

  function DescriptionField(headers: map<string, nat>, ws: Sheet, i: int): string {
    var d := Or(Lookups(headers, ws, DescriptionAliases, i) + [Str("")]);
    if Truthy(d) then CellText(d) else ""
  }

  function PriceField(headers: map<string, nat>, ws: Sheet, i: int, parse: string -> Option<real>)
    : Result<Option<real>, ImportError>
  {
    var p := Or(Lookups(headers, ws, PriceAliases, i));
    if p.Empty? then Success(None)
    else match ToFloat(p, parse)
      case Some(x) => Success(Some(x))
      case None => Failure(PriceNotANumber(i))
  }

  /** sku: the first truthy alias value as text, else the placeholder; never empty. */
  lemma SkuFieldSpec(headers: map<string, nat>, ws: Sheet, i: int)
    requires i >= 2
    ensures var a, b := Get(headers, ws, "sku", i), Get(headers, ws, "stok_kodu", i);
      && SkuField(headers, ws, i) != []
      && (Truthy(a) ==> SkuField(headers, ws, i) == CellText(a))
      && (!Truthy(a) && Truthy(b) ==> SkuField(headers, ws, i) == CellText(b))
      && (!Truthy(a) && !Truthy(b) ==> SkuField(headers, ws, i) == SkuPlaceholder(i - 1))
  {
    var a, b := Get(headers, ws, "sku", i), Get(headers, ws, "stok_kodu", i);
    var placeholder := SkuPlaceholder(i - 1);
    LookupsOfTwo(headers, ws, "sku", "stok_kodu", i);
    assert [a, b] + [Str(placeholder)] == [a, b, Str(placeholder)];
    OrOfThree(a, b, Str(placeholder));
    assert placeholder != [];
  }

  /** name: the first truthy of the three alias values as text, else the placeholder; never empty. */
  lemma NameFieldSpec(headers: map<string, nat>, ws: Sheet, i: int)
    requires i >= 2
    ensures var cs := Lookups(headers, ws, NameAliases, i);
      && NameField(headers, ws, i) != []
      && (forall k :: 0 <= k < 3 && Truthy(cs[k]) && (forall j :: 0 <= j < k ==> !Truthy(cs[j])) ==>
            NameField(headers, ws, i) == CellText(cs[k]))
      && ((forall k :: 0 <= k < 3 ==> !Truthy(cs[k])) ==> NameField(headers, ws, i) == NamePlaceholder(i - 1))
  {
    var cs := Lookups(headers, ws, NameAliases, i);
    var all := cs + [Str(NamePlaceholder(i - 1))];
    forall k | 0 <= k < 3 && Truthy(cs[k]) && (forall j :: 0 <= j < k ==> !Truthy(cs[j]))
      ensures NameField(headers, ws, i) == CellText(cs[k])
    {
      OrFirstTruthy(all, k);
    }
    if forall k :: 0 <= k < 3 ==> !Truthy(cs[k]) {
      OrFirstTruthy(all, 3);
    } else {
      var k :| 0 <= k < 3 && Truthy(cs[k]);
      if Truthy(cs[0]) {
        OrFirstTruthy(all, 0);
      } else if Truthy(cs[1]) {
        OrFirstTruthy(all, 1);
      } else {
        OrFirstTruthy(all, 2);
      }
    }
  }

  /** description: the first truthy alias value as text, else the empty string. */
  lemma DescriptionFieldSpec(headers: map<string, nat>, ws: Sheet, i: int)
    ensures var a, b := Get(headers, ws, "description", i), Get(headers, ws, "a\U{E7}\U{131}klama", i);
      && (Truthy(a) ==> DescriptionField(headers, ws, i) == CellText(a))
      && (!Truthy(a) && Truthy(b) ==> DescriptionField(headers, ws, i) == CellText(b))
      && (!Truthy(a) && !Truthy(b) ==> DescriptionField(headers, ws, i) == "")
  {
    var a, b := Get(headers, ws, "description", i), Get(headers, ws, "a\U{E7}\U{131}klama", i);
    LookupsOfTwo(headers, ws, "description", "a\U{E7}\U{131}klama", i);
    assert [a, b] + [Str("")] == [a, b, Str("")];
    OrOfThree(a, b, Str(""));
  }

  /** price: None exactly when the first alias is falsy and the second is None;
      otherwise float() of the chosen value, which aborts the import when it raises. */
  lemma PriceFieldSpec(headers: map<string, nat>, ws: Sheet, i: int, parse: string -> Option<real>)
    ensures var a, b := Get(headers, ws, "price", i), Get(headers, ws, "fiyat", i);
      var chosen := if Truthy(a) then a else b;
      && (PriceField(headers, ws, i, parse) == Success(None) <==> !Truthy(a) && b.Empty?)
      && (PriceField(headers, ws, i, parse).Failure? <==> !chosen.Empty? && ToFloat(chosen, parse).None?)
      && (PriceField(headers, ws, i, parse).Failure? ==> PriceField(headers, ws, i, parse).error == PriceNotANumber(i))
      && (!chosen.Empty? && ToFloat(chosen, parse).Some? ==>
            PriceField(headers, ws, i, parse) == Success(ToFloat(chosen, parse)))
  {
    var cs := [Get(headers, ws, "price", i), Get(headers, ws, "fiyat", i)];
    LookupsOfTwo(headers, ws, "price", "fiyat", i);
    if Truthy(cs[0]) {
      OrFirstTruthy(cs, 0);
    } else {
      assert Or(cs) == Or(cs[1..]);
    }
  }

  /** A price cell of 0 with no fiyat column gives None; a fiyat cell of 0 gives 0.0. */
  lemma ZeroPriceExample(parse: string -> Option<real>)
    ensures var ws := Sheet(2, 1, map[(1, 1) := Str("Price"), (2, 1) := Int(0)]);
      PriceField(map["price" := 1], ws, 2, parse) == Success(None)
    ensures var ws := Sheet(2, 2, map[(1, 1) := Str("Price"), (1, 2) := Str("Fiyat"), (2, 1) := Int(0), (2, 2) := Int(0)]);
      PriceField(map["price" := 1, "fiyat" := 2], ws, 2, parse) == Success(Some(0.0))
  {
    var ws := Sheet(2, 1, map[(1, 1) := Str("Price"), (2, 1) := Int(0)]);
    var cs := Lookups(map["price" := 1], ws, PriceAliases, 2);
    assert cs[0] == Int(0) && cs[1] == Empty;
    assert Or(cs) == Or(cs[1..]) == Empty;
    var ws' := Sheet(2, 2, map[(1, 1) := Str("Price"), (1, 2) := Str("Fiyat"), (2, 1) := Int(0), (2, 2) := Int(0)]);
    var cs' := Lookups(map["price" := 1, "fiyat" := 2], ws', PriceAliases, 2);
    assert cs'[0] == Int(0) && cs'[1] == Int(0);
    assert Or(cs') == Or(cs'[1..]) == Int(0);
  }

  /** A blank fiyat string is chosen when price is missing, and float("") raises. */
  lemma BlankPriceExample(parse: string -> Option<real>)
    ensures var ws := Sheet(2, 1, map[(1, 1) := Str("Fiyat"), (2, 1) := Str("")]);
      PriceField(map["fiyat" := 1], ws, 2, parse) == Failure(PriceNotANumber(2))
  {
    var ws := Sheet(2, 1, map[(1, 1) := Str("Fiyat"), (2, 1) := Str("")]);
    var cs := Lookups(map["fiyat" := 1], ws, PriceAliases, 2);
    assert cs[0] == Empty && cs[1] == Str("");
    assert Or(cs) == Or(cs[1..]) == Str("");
  }

  // ---------------------------------------------------------------- images

  /** image_map.get(row, []) */
  function RowImages(m: map<int, seq<nat>>, row: int): seq<nat> {
    if row in m then m[row] else []
  }

  /** image_map after the loop has seen the first n images (stored by their position). */
  function ImageMapUpTo(images: seq<SheetImage>, n: nat): map<int, seq<nat>>
    requires n <= |images|
  {
    if n == 0 then map[]
    else
      var m := ImageMapUpTo(images, n - 1);
      match images[n - 1].anchorRow
      case None => m
      case Some(r) => m[r + 1 := RowImages(m, r + 1) + [n - 1]]
  }

  function ImageMap(images: seq<SheetImage>): map<int, seq<nat>> {
    ImageMapUpTo(images, |images|)
  }

  /** Reference definition: the positions below n of the images anchored on the
      1-based row `row`, in enumeration order. */
  function AnchoredOn(images: seq<SheetImage>, n: nat, row: int): seq<nat>
    requires n <= |images|
  {
    if n == 0 then []
    else AnchoredOn(images, n - 1, row) + (if images[n - 1].anchorRow == Some(row - 1) then [n - 1] else [])
  }

  /** A position is listed for a row exactly when its anchor is that row, and the list is increasing. */
  lemma {:induction false} AnchoredOnSpec(images: seq<SheetImage>, n: nat, row: int)
    requires n <= |images|
    ensures forall k: nat :: k in AnchoredOn(images, n, row) <==> k < n && images[k].anchorRow == Some(row - 1)
    ensures forall a, b :: 0 <= a < b < |AnchoredOn(images, n, row)| ==>
      AnchoredOn(images, n, row)[a] < AnchoredOn(images, n, row)[b]
  {
    if n > 0 {
      AnchoredOnSpec(images, n - 1, row);
      var before := AnchoredOn(images, n - 1, row);
      forall a | 0 <= a < |before|
        ensures before[a] < n - 1
      {
        assert before[a] in before;
      }
    }
  }

  /** The setdefault/append loop builds, for every row, exactly the anchored list. */
  lemma {:induction false} ImageMapUpToSpec(images: seq<SheetImage>, n: nat)
    requires n <= |images|
    ensures forall row :: RowImages(ImageMapUpTo(images, n), row) == AnchoredOn(images, n, row)
    ensures forall row :: row in ImageMapUpTo(images, n) ==> ImageMapUpTo(images, n)[row] != []
  {
    if n > 0 {
      ImageMapUpToSpec(images, n - 1);
      var m := ImageMapUpTo(images, n - 1);
      forall row
        ensures RowImages(ImageMapUpTo(images, n), row) == AnchoredOn(images, n, row)
      {
        assert RowImages(m, row) == AnchoredOn(images, n - 1, row);
      }
    }
  }

  predicate InBounds(images: seq<SheetImage>, list: seq<nat>) {
    forall k :: 0 <= k < |list| ==> list[k] < |images|
  }

  lemma ImageMapBounded(images: seq<SheetImage>, row: int)
    ensures RowImages(ImageMap(images), row) == AnchoredOn(images, |images|, row)
    ensures InBounds(images, RowImages(ImageMap(images), row))
  {
    ImageMapUpToSpec(images, |images|);
    AnchoredOnSpec(images, |images|, row);
    var list := AnchoredOn(images, |images|, row);
    forall k | 0 <= k < |list|
      ensures list[k] < |images|
    {
      assert list[k] in list;
    }
  }

  /** An image whose anchor raised is in no row's list; any other is in the list
      of its anchor row plus one, and in no other. */
  lemma ImageInExactlyOneRow(images: seq<SheetImage>, k: nat)
    requires k < |images|
    ensures images[k].anchorRow.None? ==> forall row :: k !in RowImages(ImageMap(images), row)
    ensures images[k].anchorRow.Some? ==>
      forall row :: k in RowImages(ImageMap(images), row) <==> row == images[k].anchorRow.value + 1
  {
    ImageMapUpToSpec(images, |images|);
    forall row
      ensures k in RowImages(ImageMap(images), row) <==> images[k].anchorRow == Some(row - 1)
    {
      AnchoredOnSpec(images, |images|, row);
    }
  }

  /** The enumeration loop that groups images by anchor row. */
  method BuildImageMap(images: seq<SheetImage>) returns (imageMap: map<int, seq<nat>>)
    ensures imageMap == ImageMap(images)
  {
    imageMap := map[];
    var n := 0;
    while n < |images|
      invariant n <= |images|
      invariant imageMap == ImageMapUpTo(images, n)
    {
      match images[n].anchorRow {
        case None =>
          // reading the anchor raised: the image joins no row
        case Some(r) =>
          imageMap := imageMap[r + 1 := RowImages(imageMap, r + 1) + [n]];
      }
      n := n + 1;
    }
  }

  /** f"{sku}_{idx}.png" */
  function ImageFileName(sku: string, idx: nat): string {
    sku + "_" + NatToString(idx) + ".png"
  }

  function ImagePath(dir: string, sku: string, idx: nat): string {
    PathJoin(dir, ImageFileName(sku, idx))
  }

  /** Different positions give different file names. */
  lemma ImageFileNameInjective(sku: string, a: nat, b: nat)
    requires ImageFileName(sku, a) == ImageFileName(sku, b)
    ensures a == b
  {
    var p := sku + "_";
    var x, y := NatToString(a), NatToString(b);
    assert ImageFileName(sku, a) == p + (x + ".png") && ImageFileName(sku, b) == p + (y + ".png");
    PrefixCancel(p, x + ".png", y + ".png");
    SuffixCancel(x, y, ".png");
    NatToStringInjective(a, b);
  }

  /** Every file name of a sku starts with the same character. */
  lemma ImageFileNameHead(sku: string, idx: nat)
    ensures ImageFileName(sku, idx) != [] && ImageFileName(sku, idx)[0] == (sku + "_")[0]
  {
    var p := sku + "_";
    assert ImageFileName(sku, idx) == p + (NatToString(idx) + ".png");
  }

  /** Different positions in a row's list give different output paths. */
  lemma ImagePathInjective(dir: string, sku: string, a: nat, b: nat)
    requires ImagePath(dir, sku, a) == ImagePath(dir, sku, b)
    ensures a == b
  {
    ImageFileNameHead(sku, a);
    ImageFileNameHead(sku, b);
    PathJoinInjective(dir, ImageFileName(sku, a), ImageFileName(sku, b));
    ImageFileNameInjective(sku, a, b);
  }

  /** The names kept after trying positions 0..n-1: position k's name when
      `kept(k)` holds, in position order. */
  function KeptUpTo(name: nat -> string, kept: nat -> bool, n: nat): seq<string> {
    if n == 0 then [] else KeptUpTo(name, kept, n - 1) + (if kept(n - 1) then [name(n - 1)] else [])
  }

  ghost predicate Injective(name: nat -> string) {
    forall a, b :: name(a) == name(b) ==> a == b
  }

  /** At most one name per position is kept. */
  lemma {:induction false} KeptLength(name: nat -> string, kept: nat -> bool, n: nat)
    ensures |KeptUpTo(name, kept, n)| <= n
  {
    if n > 0 {
      KeptLength(name, kept, n - 1);
    }
  }

  /** With distinct names, a position's name is kept exactly when the position is,
      and no later position's name is there yet. */
  lemma {:induction false} KeptMembership(name: nat -> string, kept: nat -> bool, n: nat)
    requires Injective(name)
    ensures forall k: nat :: k < n ==> (name(k) in KeptUpTo(name, kept, n) <==> kept(k))
    ensures forall k: nat :: n <= k ==> name(k) !in KeptUpTo(name, kept, n)
  {
    if n > 0 {
      KeptMembership(name, kept, n - 1);
    }
  }

  /** With distinct names, no name is kept twice. */
  lemma {:induction false} KeptDistinct(name: nat -> string, kept: nat -> bool, n: nat)
    requires Injective(name)
    ensures forall a, b :: 0 <= a < b < |KeptUpTo(name, kept, n)| ==>
      KeptUpTo(name, kept, n)[a] != KeptUpTo(name, kept, n)[b]
  {
    if n > 0 {
      KeptDistinct(name, kept, n - 1);
      KeptMembership(name, kept, n - 1);
      var before := KeptUpTo(name, kept, n - 1);
      var after := KeptUpTo(name, kept, n);
      forall a, b | 0 <= a < b < |after|
        ensures after[a] != after[b]
      {
        if b == |before| {
          assert after[b] == name(n - 1) && after[a] == before[a];
          assert before[a] in before;
        } else {
          assert after[a] == before[a] && after[b] == before[b];
        }
      }
    }
  }

  /** Every kept name is the name of a kept position. */
  lemma {:induction false} KeptOrigin(name: nat -> string, kept: nat -> bool, n: nat)
    ensures forall p :: p in KeptUpTo(name, kept, n) ==> exists k: nat :: k < n && kept(k) && p == name(k)
  {
    if n > 0 {
      KeptOrigin(name, kept, n - 1);
    }
  }

  /** With distinct names, the kept names follow position order. */
  lemma {:induction false} KeptOrder(name: nat -> string, kept: nat -> bool, n: nat)
    requires Injective(name)
    ensures forall a, b, ka: nat, kb: nat ::
      (0 <= a < b < |KeptUpTo(name, kept, n)| && KeptUpTo(name, kept, n)[a] == name(ka)
       && KeptUpTo(name, kept, n)[b] == name(kb)) ==> ka < kb
  {
    if n > 0 {
      KeptOrder(name, kept, n - 1);
      KeptMembership(name, kept, n - 1);
      var before := KeptUpTo(name, kept, n - 1);
      var after := KeptUpTo(name, kept, n);
      forall a, b, ka: nat, kb: nat | 0 <= a < b < |after| && after[a] == name(ka) && after[b] == name(kb)
        ensures ka < kb
      {
        assert after[a] == before[a];
        if b == |before| {
          assert after[b] == name(n - 1);
          assert before[a] in before;
        } else {
          assert after[b] == before[b];
        }
      }
    }
  }

  /** The output path of each position in a row's list. */
  function ImagePaths(dir: string, sku: string): nat -> string {
    (idx: nat) => ImagePath(dir, sku, idx)
  }

  /** Whether the image at each position of a row's list is written out. */
  function Extracted(images: seq<SheetImage>, list: seq<nat>): nat -> bool {
    (k: nat) => k < |list| && list[k] < |images| && images[list[k]].extractable
  }

  lemma ImagePathsInjective(dir: string, sku: string)
    ensures Injective(ImagePaths(dir, sku))
  {
    forall a: nat, b: nat | ImagePaths(dir, sku)(a) == ImagePaths(dir, sku)(b)
      ensures a == b
    {
      ImagePathInjective(dir, sku, a, b);
    }
  }

  /** `paths` once the extraction loop has tried the first n entries of the row's list. */
  function SavedPathsUpTo(dir: string, sku: string, images: seq<SheetImage>, list: seq<nat>, n: nat): seq<string> {
    KeptUpTo(ImagePaths(dir, sku), Extracted(images, list), n)
  }

  function SavedPaths(dir: string, sku: string, images: seq<SheetImage>, list: seq<nat>): seq<string> {
    SavedPathsUpTo(dir, sku, images, list, |list|)
  }

  /** A row's images are distinct paths, one for each entry of its list whose image
      was written out and none other, named by the entry's position, in list order. */
  lemma SavedPathsSpec(dir: string, sku: string, images: seq<SheetImage>, list: seq<nat>)
    requires InBounds(images, list)
    ensures |SavedPaths(dir, sku, images, list)| <= |list|
    ensures forall idx :: 0 <= idx < |list| ==>
      (ImagePath(dir, sku, idx) in SavedPaths(dir, sku, images, list) <==> images[list[idx]].extractable)
    ensures forall p :: p in SavedPaths(dir, sku, images, list) ==>
      exists idx :: 0 <= idx < |list| && images[list[idx]].extractable && p == ImagePath(dir, sku, idx)
    ensures forall a, b, ia: nat, ib: nat ::
      (0 <= a < b < |SavedPaths(dir, sku, images, list)| && SavedPaths(dir, sku, images, list)[a] == ImagePath(dir, sku, ia)
       && SavedPaths(dir, sku, images, list)[b] == ImagePath(dir, sku, ib)) ==> ia < ib
    ensures forall a, b :: 0 <= a < b < |SavedPaths(dir, sku, images, list)| ==>
      SavedPaths(dir, sku, images, list)[a] != SavedPaths(dir, sku, images, list)[b]
  {
    var name, kept := ImagePaths(dir, sku), Extracted(images, list);
    var paths := SavedPaths(dir, sku, images, list);
    ImagePathsInjective(dir, sku);
    KeptLength(name, kept, |list|);
    KeptMembership(name, kept, |list|);
    KeptDistinct(name, kept, |list|);
    KeptOrigin(name, kept, |list|);
    KeptOrder(name, kept, |list|);
    forall idx | 0 <= idx < |list|
      ensures ImagePath(dir, sku, idx) in paths <==> images[list[idx]].extractable
    {
      assert name(idx) == ImagePath(dir, sku, idx);
      assert kept(idx) == images[list[idx]].extractable;
    }
    forall p | p in paths
      ensures exists idx :: 0 <= idx < |list| && images[list[idx]].extractable && p == ImagePath(dir, sku, idx)
    {
      var k: nat :| k < |list| && kept(k) && p == name(k);
      assert name(k) == ImagePath(dir, sku, k);
    }
    forall a, b, ia: nat, ib: nat | 0 <= a < b < |paths| && paths[a] == ImagePath(dir, sku, ia) && paths[b] == ImagePath(dir, sku, ib)
      ensures ia < ib
    {
      assert name(ia) == ImagePath(dir, sku, ia) && name(ib) == ImagePath(dir, sku, ib);
    }
  }

  /** The per-row extraction loop: a failed image is skipped, the rest go on. */
  method ExtractImages(dir: string, sku: string, images: seq<SheetImage>, list: seq<nat>)
    returns (paths: seq<string>)
    requires InBounds(images, list)
    ensures paths == SavedPaths(dir, sku, images, list)
  {
    paths := [];
    var idx := 0;
    while idx < |list|
      invariant idx <= |list|
      invariant paths == SavedPathsUpTo(dir, sku, images, list, idx)
    {
      var outPath := ImagePath(dir, sku, idx);
      assert ImagePaths(dir, sku)(idx) == outPath;
      assert Extracted(images, list)(idx) == images[list[idx]].extractable;
      if images[list[idx]].extractable {
        paths := paths + [outPath];
      }
      idx := idx + 1;
    }
  }

  /** Three images A, B, C anchored on row 3, B failing: the paths are <sku>_0 and <sku>_2. */
  lemma PartialFailureExample(dir: string, sku: string)
    ensures var images := [SheetImage(Some(2), true), SheetImage(Some(2), false), SheetImage(Some(2), true)];
      && RowImages(ImageMap(images), 3) == [0, 1, 2]
      && SavedPaths(dir, sku, images, [0, 1, 2]) == [ImagePath(dir, sku, 0), ImagePath(dir, sku, 2)]
  {
    var images := [SheetImage(Some(2), true), SheetImage(Some(2), false), SheetImage(Some(2), true)];
    ImageMapBounded(images, 3);
    assert AnchoredOn(images, 1, 3) == [0];
    assert AnchoredOn(images, 2, 3) == [0, 1];
    assert SavedPathsUpTo(dir, sku, images, [0, 1, 2], 1) == [ImagePath(dir, sku, 0)];
    assert SavedPathsUpTo(dir, sku, images, [0, 1, 2], 2) == [ImagePath(dir, sku, 0)];
  }

  // ---------------------------------------------------------------- rows

  /** The record the loop appends for sheet row i, or the error float() raises on its price. */
  function ImportRow(ws: Sheet, images: seq<SheetImage>, parse: string -> Option<real>, dir: string, i: int)
    : Result<ImportedRow, ImportError>
    requires i >= 2
  {
    var headers := Headers(ws);
    var sku := SkuField(headers, ws, i);
    var paths := SavedPaths(dir, sku, images, RowImages(ImageMap(images), i));
    match PriceField(headers, ws, i, parse)
    case Failure(e) => Failure(e)
    case Success(price) =>
      Success(ImportedRow(sku, NameField(headers, ws, i), DescriptionField(headers, ws, i), price, paths))
  }

  /** Every record has a non-empty sku and name, and its images are distinct paths,
      one for each image anchored on the row that could be extracted and none other,
      named by its position among all images anchored there, in that order. */
  lemma ImportRowSpec(ws: Sheet, images: seq<SheetImage>, parse: string -> Option<real>, dir: string, i: int)
    requires i >= 2 && ImportRow(ws, images, parse, dir, i).Success?
    ensures var r := ImportRow(ws, images, parse, dir, i).value;
      var anchored := AnchoredOn(images, |images|, i);
      && r.sku != [] && r.name != []
      && |r.images| <= |anchored|
      && InBounds(images, anchored)
      && (forall idx :: 0 <= idx < |anchored| ==>
            (ImagePath(dir, r.sku, idx) in r.images <==> images[anchored[idx]].extractable))
      && (forall p :: p in r.images ==>
            exists idx :: 0 <= idx < |anchored| && images[anchored[idx]].extractable && p == ImagePath(dir, r.sku, idx))
      && (forall a, b, ia: nat, ib: nat ::
            (0 <= a < b < |r.images| && r.images[a] == ImagePath(dir, r.sku, ia) && r.images[b] == ImagePath(dir, r.sku, ib))
            ==> ia < ib)
      && (forall a, b :: 0 <= a < b < |r.images| ==> r.images[a] != r.images[b])
  {
    var headers := Headers(ws);
    SkuFieldSpec(headers, ws, i);
    NameFieldSpec(headers, ws, i);
    ImageMapBounded(images, i);
    var list := RowImages(ImageMap(images), i);
    var sku := SkuField(headers, ws, i);
    SavedPathsSpec(dir, sku, images, list);
  }

  /** One turn of the row loop: the fields are resolved, the row's images are
      written out, and then the price is converted, which may abort the import. */
  method ReadRow(ws: Sheet, images: seq<SheetImage>, parse: string -> Option<real>, dir: string,
                 headers: map<string, nat>, imageMap: map<int, seq<nat>>, i: int)
    returns (row: Result<ImportedRow, ImportError>)
    requires i >= 2 && headers == Headers(ws) && imageMap == ImageMap(images)
    ensures row == ImportRow(ws, images, parse, dir, i)
  {
    var sku := SkuField(headers, ws, i);
    var name := NameField(headers, ws, i);
    var description := DescriptionField(headers, ws, i);
    var price := PriceField(headers, ws, i, parse);
    ImageMapBounded(images, i);
    var paths := ExtractImages(dir, sku, images, RowImages(imageMap, i));
    if price.Failure? {
      return Failure(price.error);
    }
    return Success(ImportedRow(sku, name, description, price.value, paths));
  }

  /** Reading rows 2..n in order with `rowOf`: all their records, or the first
      failure. */
  function FirstFailure<R, E>(rowOf: int --> Result<R, E>, n: int): Result<seq<R>, E>
    requires forall i :: 2 <= i <= n ==> rowOf.requires(i)
    decreases n
  {
    if n < 2 then Success([])
    else match FirstFailure(rowOf, n - 1)
      case Failure(e) => Failure(e)
      case Success(rows) =>
        match rowOf(n)
        case Failure(e) => Failure(e)
        case Success(r) => Success(rows + [r])
  }

  /** The fold succeeds exactly when every row does, with one record per row in
      row order; otherwise it yields the failure of the first failing row. */
  lemma {:induction false} FirstFailureSpec<R, E>(rowOf: int --> Result<R, E>, n: int)
    requires forall i :: 2 <= i <= n ==> rowOf.requires(i)
    ensures FirstFailure(rowOf, n).Success? <==> forall i :: 2 <= i <= n ==> rowOf(i).Success?
    ensures FirstFailure(rowOf, n).Success? ==>
      var rows := FirstFailure(rowOf, n).value;
      && |rows| == (if n < 2 then 0 else n - 1)
      && forall k :: 0 <= k < |rows| ==> rowOf(k + 2) == Success(rows[k])
    ensures FirstFailure(rowOf, n).Failure? ==>
      exists i :: 2 <= i <= n && rowOf(i) == Failure(FirstFailure(rowOf, n).error)
        && forall j :: 2 <= j < i ==> rowOf(j).Success?
    decreases n
  {
    if n >= 2 {
      FirstFailureSpec(rowOf, n - 1);
      var before := FirstFailure(rowOf, n - 1);
      if before.Success? && rowOf(n).Success? {
        var rows := before.value + [rowOf(n).value];
        forall k | 0 <= k < |rows|
          ensures rowOf(k + 2) == Success(rows[k])
        {
          if k < |before.value| {
            assert rows[k] == before.value[k];
          }
        }
      }
    }
  }

  /** One more row extends the records or becomes the failure. */
  lemma FirstFailureStep<R, E>(rowOf: int --> Result<R, E>, n: int, rows: seq<R>)
    requires n >= 2 && forall i :: 2 <= i <= n ==> rowOf.requires(i)
    requires FirstFailure(rowOf, n - 1) == Success(rows)
    ensures rowOf(n).Success? ==> FirstFailure(rowOf, n) == Success(rows + [rowOf(n).value])
    ensures rowOf(n).Failure? ==> FirstFailure(rowOf, n) == Failure(rowOf(n).error)
  {
  }

  /** Once a row has failed, the loop's result stays that failure. */
  lemma {:induction false} FirstFailureStays<R, E>(rowOf: int --> Result<R, E>, n: int, m: int)
    requires forall i :: 2 <= i <= m ==> rowOf.requires(i)
    requires n <= m && FirstFailure(rowOf, n).Failure?
    ensures FirstFailure(rowOf, m) == FirstFailure(rowOf, n)
    decreases m - n
  {
    if n < m {
      FirstFailureStays(rowOf, n, m - 1);
    }
  }
  /** The row reader of import_from_excel as a function of the row number. */
  function RowReader(ws: Sheet, images: seq<SheetImage>, parse: string -> Option<real>, dir: string)
    : int --> Result<ImportedRow, ImportError>
  {
    i requires i >= 2 => ImportRow(ws, images, parse, dir, i)
  }

  /** The row loop after data rows 2..n. */
  function ImportUpTo(ws: Sheet, images: seq<SheetImage>, parse: string -> Option<real>, dir: string, n: int)
    : Result<seq<ImportedRow>, ImportError>
  {
    FirstFailure(RowReader(ws, images, parse, dir), n)
  }

  /** The import succeeds exactly when every row does, with one record per row in
      row order; otherwise it stops with the price error of the first failing row. */
  lemma ImportUpToSpec(ws: Sheet, images: seq<SheetImage>, parse: string -> Option<real>, dir: string, n: int)
    ensures ImportUpTo(ws, images, parse, dir, n).Success? <==>
      forall i :: 2 <= i <= n ==> ImportRow(ws, images, parse, dir, i).Success?
    ensures ImportUpTo(ws, images, parse, dir, n).Success? ==>
      var rows := ImportUpTo(ws, images, parse, dir, n).value;
      && |rows| == (if n < 2 then 0 else n - 1)
      && forall k :: 0 <= k < |rows| ==> ImportRow(ws, images, parse, dir, k + 2) == Success(rows[k])
    ensures ImportUpTo(ws, images, parse, dir, n).Failure? ==>
      var e := ImportUpTo(ws, images, parse, dir, n).error;
      && e.PriceNotANumber?
      && 2 <= e.row <= n
      && ImportRow(ws, images, parse, dir, e.row) == Failure(e)
      && forall i :: 2 <= i < e.row ==> ImportRow(ws, images, parse, dir, i).Success?
  {
    var rowOf := RowReader(ws, images, parse, dir);
    assert forall i :: 2 <= i ==> rowOf(i) == ImportRow(ws, images, parse, dir, i);
    FirstFailureSpec(rowOf, n);
    var result := FirstFailure(rowOf, n);
    if result.Failure? {
      var i :| 2 <= i <= n && rowOf(i) == Failure(result.error) && forall j :: 2 <= j < i ==> rowOf(j).Success?;
      ImportRowError(ws, images, parse, dir, i);
    }
  }

  /** A row fails only on its own price. */
  lemma ImportRowError(ws: Sheet, images: seq<SheetImage>, parse: string -> Option<real>, dir: string, i: int)
    requires i >= 2 && ImportRow(ws, images, parse, dir, i).Failure?
    ensures ImportRow(ws, images, parse, dir, i).error == PriceNotANumber(i)
  {
    PriceFieldSpec(Headers(ws), ws, i, parse);
  }

  /** import_from_excel: the header map and the image map are built first, the
      output directory is created, and then the rows are read in order. */
  method ImportFromExcel(ws: Sheet, images: seq<SheetImage>, parse: string -> Option<real>,
                         dir: string, dirCreated: bool)
    returns (result: Result<seq<ImportedRow>, ImportError>)
    ensures result == if dirCreated then ImportUpTo(ws, images, parse, dir, ws.maxRow) else Failure(DirectoryNotCreated)
  {
    var headers := BuildHeaders(ws);
    var imageMap := BuildImageMap(images);
    if !dirCreated {
      return Failure(DirectoryNotCreated);
    }
    result := ImportRows(ws, images, parse, dir, headers, imageMap);
  }

  /** The row loop of import_from_excel, over data rows 2..max_row. */
  method ImportRows(ws: Sheet, images: seq<SheetImage>, parse: string -> Option<real>, dir: string,
                    headers: map<string, nat>, imageMap: map<int, seq<nat>>)
    returns (result: Result<seq<ImportedRow>, ImportError>)
    requires headers == Headers(ws) && imageMap == ImageMap(images)
    ensures result == ImportUpTo(ws, images, parse, dir, ws.maxRow)
  {
    ghost var rowOf := RowReader(ws, images, parse, dir);
    var rows: seq<ImportedRow> := [];
    var i := 2;
    while i <= ws.maxRow
      invariant 2 <= i <= if ws.maxRow < 2 then 2 else ws.maxRow + 1
      invariant FirstFailure(rowOf, i - 1) == Success(rows)
    {
      var row := ReadRow(ws, images, parse, dir, headers, imageMap, i);
      assert rowOf(i) == row;
      FirstFailureStep(rowOf, i, rows);
      if row.Failure? {
        FirstFailureStays(rowOf, i, ws.maxRow);
        return Failure(row.error);
      }
      rows := rows + [row.value];
      i := i + 1;
    }
    assert i - 1 == ws.maxRow || (ws.maxRow < 2 && FirstFailure(rowOf, ws.maxRow) == Success([]));
    return Success(rows);
  }
}
