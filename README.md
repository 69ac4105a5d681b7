# Catalog importer and PDF layout, modelled in Dafny

This project models the two algorithmic parts of a small product-catalog
backend:

- **`import_from_excel`** reads the active sheet of a workbook into one
  record per data row. It builds a header map from row 1, groups the embedded
  images by anchor row, and resolves each field through a list of header
  aliases. Missing identifiers get placeholders (`SKU-00002`, `Ürün 2`). Each
  row's images are written out as `<sku>_<idx>.png` in the upload directory,
  and an image that fails is skipped.
- **`build_catalog`** lays product records out as the story of an A4
  document. The story is a header (logo, company title, spacer) followed by
  bands of product cards, 2 per band for `classic`, 3 for `modern` and 1 for
  any other design. A full band gets the padded table style, and the remainder
  goes into one last plain band.

Files:

- `wrappers.dfy`: `Option` and `Result`.
- `text.dfy`: the Python string built-ins the importer relies on: `str()` of
  an int, the `05d` format, `str.strip()`, `str.lower()` and `os.path.join`.
- `importer.dfy`: `import_from_excel`.
- `catalog.dfy`: `build_catalog` up to `doc.build`.

Each loop of the source is a method proved equal to a specification function
written as a fold over the loop's prefix:

| method | specification function |
|---|---|
| `BuildHeaders` | `HeadersUpTo` |
| `BuildImageMap` | `ImageMapUpTo` |
| `ExtractImages` | `SavedPathsUpTo` |
| `ImportRows` | `FirstFailure` |
| `LayOutCards` | `LayOutUpTo` |

Lemmas then state what the source promises about those functions, against
independent reference definitions where the fold is not self-explanatory:

- `AnchoredOn` for the image map;
- `Bands` (recursive chunking) for the card loop.

The outside world enters as parameters:

- the loaded sheet and its image list;
- whether the upload directory could be created;
- whether each image's bytes could be read and written;
- Python's `float()` on a string, as an oracle `parse`;
- for the catalog, whether a file exists and whether the image loader accepts it.

Behaviours of the code that the model keeps, and that a reader might not expect:

- **Repeated header label:** the last column with that label wins, because
  the dict entry is overwritten (`importer.py:11-12`).
- **Non-numeric price:** `float(price)` raises on a price string it cannot
  read, and the exception leaves `import_from_excel`, so the whole import
  fails (`importer.py:54`). No row is kept with an empty price. The model
  returns `Failure(PriceNotANumber(row))`.
- **Blank price strings:** `float()` of an empty or all-whitespace string
  always raises, whatever the oracle says.
- **Which price is None:** the price is None only when the `price` alias is
  falsy and the `fiyat` lookup is None, because `a or b` yields `b`. A `price`
  cell of 0 with no `fiyat` column therefore gives None, while a `fiyat` cell
  of 0 gives 0.0. An empty `fiyat` string reaches `float("")` and fails.
- **Alias fallback:** alias values are skipped by Python truthiness, so 0, 0.0,
  False, "" and a zero duration all fall through to the next alias.

## Model

| member | source | states |
|---|---|---|
| Text.NatToStringRoundTrip | ozkul_catalog_mvp_ChatGBT_07.10.2025/app/importer.py:31-32 | the decimal text of an ordinal reads back as that ordinal |
| Text.NatToStringInjective | ozkul_catalog_mvp_ChatGBT_07.10.2025/app/importer.py:39 | different indices give different decimal texts |
| Text.PaddedRoundTrip | ozkul_catalog_mvp_ChatGBT_07.10.2025/app/importer.py:31 | the zero-padded text of n is all digits and reads back as n |
| Text.ZeroPad | ozkul_catalog_mvp_ChatGBT_07.10.2025/app/importer.py:31 | padding adds only leading zeros, up to the width, and keeps the digits as a suffix |
| Text.Strip | ozkul_catalog_mvp_ChatGBT_07.10.2025/app/importer.py:12 | the result is no longer than the input and neither starts nor ends with whitespace |
| Text.StripSpan | ozkul_catalog_mvp_ChatGBT_07.10.2025/app/importer.py:12 | the stripped text is a slice of the input with only whitespace before and after it |
| Text.StripPadding | ozkul_catalog_mvp_ChatGBT_07.10.2025/app/importer.py:12 | whitespace added around a text does not change what strip() returns |
| Text.TrimStart | ozkul_catalog_mvp_ChatGBT_07.10.2025/app/importer.py:12 | the result is a suffix, does not start with whitespace, and only whitespace was dropped |
| Text.TrimEnd | ozkul_catalog_mvp_ChatGBT_07.10.2025/app/importer.py:12 | the result is a prefix, does not end with whitespace, and only whitespace was dropped |
| Text.Lower | ozkul_catalog_mvp_ChatGBT_07.10.2025/app/importer.py:12 | no ASCII capital survives lower-casing, and the result is at least as long as the input |
| Text.LowerAscii | ozkul_catalog_mvp_ChatGBT_07.10.2025/app/importer.py:12 | on ASCII text, lower() keeps the length and turns exactly A..Z into a..z, position by position |
| Text.LowerCaseInsensitive | ozkul_catalog_mvp_ChatGBT_07.10.2025/app/importer.py:12 | ASCII texts that differ only in letter case lower to the same text |
| Text.PathJoin | ozkul_catalog_mvp_ChatGBT_07.10.2025/app/importer.py:40 | the file name ends the joined path; an absolute name replaces the directory; a relative name lands in the directory, after exactly one '/' unless the directory is empty or already ends in '/' |
| Text.PathJoinInjective | ozkul_catalog_mvp_ChatGBT_07.10.2025/app/importer.py:40 | names that start with the same character join onto the same directory only when they are equal |
| Importer.CellText | ozkul_catalog_mvp_ChatGBT_07.10.2025/app/importer.py:51-53 | str() of a truthy value is never empty |
| Importer.HeaderKeyMatches | ozkul_catalog_mvp_ChatGBT_07.10.2025/app/importer.py:12 | a label that spells a key up to the case of its ASCII letters, with any whitespace around it, has exactly that key |
| Importer.HeaderKeySkuExample | ozkul_catalog_mvp_ChatGBT_07.10.2025/app/importer.py:12 | the label " SKU " has the key "sku" |
| Importer.HeaderKeyFiyatExample | ozkul_catalog_mvp_ChatGBT_07.10.2025/app/importer.py:12 | the label "Fiyat" has the key "fiyat" |
| Importer.IndexUpToSpec | ozkul_catalog_mvp_ChatGBT_07.10.2025/app/importer.py:10-12 | every key seen is mapped, a key maps to a position carrying it, and no later position carries it (last write wins) |
| Importer.HeadersUpToSpec | ozkul_catalog_mvp_ChatGBT_07.10.2025/app/importer.py:10-12 | every column's header key is mapped to that column or a later one with the same key; mapped columns lie in 1..n; a repeated label keeps its last column |
| Importer.BuildHeaders | ozkul_catalog_mvp_ChatGBT_07.10.2025/app/importer.py:10-12 | the header loop builds exactly the header map of row 1 |
| Importer.SyntheticKeyIsNoAlias | ozkul_catalog_mvp_ChatGBT_07.10.2025/app/importer.py:12 | a synthetic `col<j>` key is none of the field aliases |
| Importer.GetSpec | ozkul_catalog_mvp_ChatGBT_07.10.2025/app/importer.py:14-16 | an unmapped key reads as None; a mapped key reads the cell under its column (the `if j` test never hides a column) |
| Importer.OrFirstTruthy | ozkul_catalog_mvp_ChatGBT_07.10.2025/app/importer.py:31-34 | an `or` chain yields its first truthy operand |
| Importer.OrNoneTruthy | ozkul_catalog_mvp_ChatGBT_07.10.2025/app/importer.py:33-34 | an `or` chain with no truthy operand yields its last operand |
| Importer.OrOfThree | ozkul_catalog_mvp_ChatGBT_07.10.2025/app/importer.py:31 | `a or b or c` picks a, else b, else c, by truthiness |
| Importer.SkuPlaceholderSpec | ozkul_catalog_mvp_ChatGBT_07.10.2025/app/importer.py:31 | the sku placeholder is "SKU-" and at least five digits that read back as the ordinal, exactly nine characters below 100000 |
| Importer.PlaceholderExample | ozkul_catalog_mvp_ChatGBT_07.10.2025/app/importer.py:31-32 | sheet row 3 gets "SKU-00002" and "Ürün 2" |
| Importer.SkuFieldSpec | ozkul_catalog_mvp_ChatGBT_07.10.2025/app/importer.py:31 | sku is the text of the first truthy of `sku`, `stok_kodu`, else the placeholder; never empty |
| Importer.NameFieldSpec | ozkul_catalog_mvp_ChatGBT_07.10.2025/app/importer.py:32 | name is the text of the first truthy of its three aliases, else the placeholder; never empty |
| Importer.DescriptionFieldSpec | ozkul_catalog_mvp_ChatGBT_07.10.2025/app/importer.py:33 | description is the text of the first truthy alias value, else "" |
| Importer.PriceFieldSpec | ozkul_catalog_mvp_ChatGBT_07.10.2025/app/importer.py:34 | price is None exactly when `price` is falsy and `fiyat` is None; the chosen value's float() otherwise, and an error naming the row exactly when float() raises |
| Importer.ZeroPriceExample | ozkul_catalog_mvp_ChatGBT_07.10.2025/app/importer.py:34 | a `price` cell of 0 alone gives None; a `fiyat` cell of 0 gives 0.0 |
| Importer.BlankPriceExample | ozkul_catalog_mvp_ChatGBT_07.10.2025/app/importer.py:54 | an empty `fiyat` string with no `price` column is chosen, and float("") makes the row fail |
| Importer.AnchoredOnSpec | ozkul_catalog_mvp_ChatGBT_07.10.2025/app/importer.py:19-25 | an image is listed for a row exactly when it is anchored there, in increasing enumeration order |
| Importer.ImageMapUpToSpec | ozkul_catalog_mvp_ChatGBT_07.10.2025/app/importer.py:19-25 | the setdefault/append loop gives every row exactly its anchored images, and no row maps to an empty list |
| Importer.ImageMapBounded | ozkul_catalog_mvp_ChatGBT_07.10.2025/app/importer.py:25 | a row's image list is its anchored list and refers only to existing images |
| Importer.ImageInExactlyOneRow | ozkul_catalog_mvp_ChatGBT_07.10.2025/app/importer.py:20-25 | an image whose anchor raises is in no row; any other image is in the list of its anchor row plus one and in no other |
| Importer.BuildImageMap | ozkul_catalog_mvp_ChatGBT_07.10.2025/app/importer.py:19-25 | the image loop builds exactly the image map |
| Importer.ImageFileNameInjective | ozkul_catalog_mvp_ChatGBT_07.10.2025/app/importer.py:39 | different positions give different file names |
| Importer.ImageFileNameHead | ozkul_catalog_mvp_ChatGBT_07.10.2025/app/importer.py:39 | every file name of a sku starts with the same character |
| Importer.ImagePathInjective | ozkul_catalog_mvp_ChatGBT_07.10.2025/app/importer.py:39-40 | different positions give different output paths |
| Importer.ImagePathsInjective | ozkul_catalog_mvp_ChatGBT_07.10.2025/app/importer.py:39-40 | the position-to-path function is injective |
| Importer.KeptLength | ozkul_catalog_mvp_ChatGBT_07.10.2025/app/importer.py:36-48 | at most one path is kept per position tried |
| Importer.KeptMembership | ozkul_catalog_mvp_ChatGBT_07.10.2025/app/importer.py:36-48 | with distinct names, a position's path is kept exactly when its write succeeded, and no later position's path is present |
| Importer.KeptDistinct | ozkul_catalog_mvp_ChatGBT_07.10.2025/app/importer.py:36-48 | with distinct names, no path is kept twice |
| Importer.KeptOrigin | ozkul_catalog_mvp_ChatGBT_07.10.2025/app/importer.py:36-48 | every kept path is the path of a position that was kept |
| Importer.KeptOrder | ozkul_catalog_mvp_ChatGBT_07.10.2025/app/importer.py:36-48 | with distinct names, kept paths follow position order |
| Importer.SavedPathsSpec | ozkul_catalog_mvp_ChatGBT_07.10.2025/app/importer.py:36-48 | a row's paths are distinct, at most one per listed image, hold `<sku>_<idx>` exactly when image idx could be written, hold nothing else, and follow list order |
| Importer.ExtractImages | ozkul_catalog_mvp_ChatGBT_07.10.2025/app/importer.py:36-48 | the extraction loop returns exactly the saved paths; a failed image is skipped and the loop goes on |
| Importer.PartialFailureExample | ozkul_catalog_mvp_ChatGBT_07.10.2025/app/importer.py:41-48 | three images on row 3 with the second failing give the paths for positions 0 and 2 |
| Importer.ImportRowSpec | ozkul_catalog_mvp_ChatGBT_07.10.2025/app/importer.py:30-56 | a successful record has a non-empty sku and name, and its images are distinct paths, one for each anchored image that could be written and no other, in anchor-list order |
| Importer.ImportRowError | ozkul_catalog_mvp_ChatGBT_07.10.2025/app/importer.py:54 | a row fails only with the price error naming that row |
| Importer.ReadRow | ozkul_catalog_mvp_ChatGBT_07.10.2025/app/importer.py:31-56 | one turn of the row loop yields exactly that row's record or its price error |
| Importer.FirstFailureSpec | ozkul_catalog_mvp_ChatGBT_07.10.2025/app/importer.py:30-57 | reading rows 2..n succeeds exactly when every row does, with one record per row in order; otherwise it yields the first failing row's error |
| Importer.FirstFailureStep | ozkul_catalog_mvp_ChatGBT_07.10.2025/app/importer.py:50-56 | one more row appends its record or becomes the failure |
| Importer.FirstFailureStays | ozkul_catalog_mvp_ChatGBT_07.10.2025/app/importer.py:30-57 | once a row has failed, later rows do not change the result |
| Importer.ImportUpToSpec | ozkul_catalog_mvp_ChatGBT_07.10.2025/app/importer.py:30-57 | the import succeeds iff every data row does, with max_row-1 records in row order; otherwise it stops with the price error of the first failing row |
| Importer.ImportRows | ozkul_catalog_mvp_ChatGBT_07.10.2025/app/importer.py:30-57 | the row loop returns exactly the fold over rows 2..max_row |
| Importer.ImportFromExcel | ozkul_catalog_mvp_ChatGBT_07.10.2025/app/importer.py:6-57 | a directory that cannot be created aborts the import; otherwise the result is the row fold |
| Catalog.ColumnCount | ozkul_catalog_mvp_ChatGBT_07.10.2025/app/pdfgen.py:23 | 2 columns exactly for "classic", 3 exactly for "modern", 1 otherwise |
| Catalog.HeaderElementsSpec | ozkul_catalog_mvp_ChatGBT_07.10.2025/app/pdfgen.py:12-19 | the logo leads exactly when shown, the title appears exactly when shown, the spacer closes the header, and the header holds no band |
| Catalog.BuildHeader | ozkul_catalog_mvp_ChatGBT_07.10.2025/app/pdfgen.py:11-19 | the header statements build exactly the header elements |
| Catalog.Truncate | ozkul_catalog_mvp_ChatGBT_07.10.2025/app/pdfgen.py:43 | the slice is a prefix of at most 240 characters, and the whole text when it is shorter |
| Catalog.CardLayout | ozkul_catalog_mvp_ChatGBT_07.10.2025/app/pdfgen.py:29-43 | card parts come in the order picture, name, sku, price, description; picture, price and description appear exactly when their conditions hold |
| Catalog.DescriptionTruncation | ozkul_catalog_mvp_ChatGBT_07.10.2025/app/pdfgen.py:42-43 | the description part is a prefix of at most 240 characters of the description |
| Catalog.BuildCard | ozkul_catalog_mvp_ChatGBT_07.10.2025/app/pdfgen.py:29-43 | the loop body builds exactly the card of the product |
| Catalog.Cards | ozkul_catalog_mvp_ChatGBT_07.10.2025/app/pdfgen.py:28-48 | one card per product, in order |
| Catalog.BandsFlatten | ozkul_catalog_mvp_ChatGBT_07.10.2025/app/pdfgen.py:49-54 | the bands hold all the cards in order, none lost or repeated |
| Catalog.BandsShape | ozkul_catalog_mvp_ChatGBT_07.10.2025/app/pdfgen.py:49-54 | every band holds 1..cols cards, is padded exactly when full, and all but the last are full |
| Catalog.BandsFlush | ozkul_catalog_mvp_ChatGBT_07.10.2025/app/pdfgen.py:49-51 | a full buffer becomes one padded band ahead of the rest |
| Catalog.BandsPush | ozkul_catalog_mvp_ChatGBT_07.10.2025/app/pdfgen.py:48-51 | one turn of the card loop keeps the bands flushed plus the bands to come unchanged |
| Catalog.BandsTail | ozkul_catalog_mvp_ChatGBT_07.10.2025/app/pdfgen.py:52-54 | a partial buffer becomes one plain band, and an empty one none |
| Catalog.BandsCount | ozkul_catalog_mvp_ChatGBT_07.10.2025/app/pdfgen.py:49-54 | there are ceil(n / cols) bands |
| Catalog.SevenProductsExample | ozkul_catalog_mvp_ChatGBT_07.10.2025/app/pdfgen.py:49-54 | seven cards give bands of 3+3+1 for "modern" and 2+2+2+1 for "classic" |
| Catalog.LayOutUpToSpec | ozkul_catalog_mvp_ChatGBT_07.10.2025/app/pdfgen.py:28-51 | part way through, the bands flushed plus the chunking of the buffer and the remaining cards equals the chunking of all cards, and the buffer is never full |
| Catalog.LayOutBands | ozkul_catalog_mvp_ChatGBT_07.10.2025/app/pdfgen.py:28-54 | the card loop and the recursive chunking agree |
| Catalog.LayOutCards | ozkul_catalog_mvp_ChatGBT_07.10.2025/app/pdfgen.py:21-54 | the card loop returns exactly the chunked bands of the cards |
| Catalog.StoryShape | ozkul_catalog_mvp_ChatGBT_07.10.2025/app/pdfgen.py:11-54 | a header followed by the bands holds exactly the cards, in ceil(n / cols) bands |
| Catalog.BuildCatalog | ozkul_catalog_mvp_ChatGBT_07.10.2025/app/pdfgen.py:8-56 | the story is the header followed by the bands; no products leave the header alone; the bands carry every card once, in order, in ceil(n / cols) bands |

## Left out

- Opening the workbook (`load_workbook`, `wb.active`): the sheet arrives as a value. A workbook that cannot be opened is outside the model.
- File I/O: creating the directory, reading image bytes and writing files are boolean inputs. The bytes are not modelled. A file left behind by a failed write is not modelled either.
- Records of earlier rows: when a price aborts the import, those records are lost, but their image files stay on disk. The model returns only the failure.
- Cross-row collisions: two rows with the same sku write to the same file names, so the later one overwrites the earlier one's files. The model yields equal paths but has no file system.
- Importer.Cell: dates, times and durations are one opaque kind, `Other`, carrying its str() text and its truthiness (false only for a zero duration). Their values are not modelled.
- Number formatting and parsing: `float()` of a string is the oracle `parse`. `str()` of a float is the text carried by the cell. `f"{price}"` in the price line is not rendered, and the part holds the number.
- Text.Lower: models ASCII, the Latin-1 capitals and Ğ, Ş, İ only, not the whole Unicode case mapping.
- Rendering with reportlab: page size, margins, styles, `<b>` markup, image sizes, the card's cell width and the 0.75 height ratio, box and valign styles, and `doc.build`. A band records only its cards and whether it carries the padded full-row style.
- Catalog.BuildCatalog: the default arguments (`design="classic"`, `show_logo=True`, `logo_path=None`, `show_company=True`, `company_name="ÖZKUL ELEKTRONİK"`) are not modelled; every parameter is explicit. Python's defaulting is a calling convention, not catalog behaviour.
- Catalog.Product: the description is a string or None. Non-string descriptions, which Python would slice differently, are not modelled.
- Other modules (the web endpoints and the upsert in `main.py`, `database.py`, `models.py`, `schemas.py`): they are not part of this model.
