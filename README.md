# KEGG annotation script, modelled in Dafny

This project models the sequence logic of `workflow/scripts/KEGG.py`, the
Snakemake step that annotates DIAMOND hits with KEGG identifiers through
the UniProt ID-mapping service. It has three parts:

- **Chunker** (`chunks`): cuts a list into contiguous slices of size `n`.
  The last slice may be shorter. Module `Chunking`, in `chunking.dfy`.
- **ID mapper** (`map_db_identifiers`): one request per chunk of 20000
  identifiers, with the chunk's identifiers joined by single spaces. Each
  tab-separated reply is shaped into a table. The first line gives the
  column names, and both it and the last line are dropped. The tables are
  appended in chunk order, then duplicate rows are removed. Module
  `IdMapping`, in `id_mapping.dfy`. The loop is an imperative method,
  `MapDbIdentifiers`, proved against the accumulator function `Collect`.
- **Annotator** (`get_kegg_annotations`):
  - derives a lookup key from each target accession (the text before its
    last `.`);
  - de-duplicates the keys into the query list;
  - groups the mapped KEGG identifiers per key, both all of them and those
    holding `eco:`;
  - left-joins both groupings back onto the hits.

  Module `KeggAnnotation`, in `annotation.dfy`.

Shared pieces:

- `Sequences` (`sequences.dfy`): concatenation, first-occurrence
  de-duplication (pandas `drop_duplicates` and `unique`) and order-keeping
  filtering.
- `Text` (`text.dfy`): Python's `str.split` and `str.join` for a
  one-character separator.
- `Wrappers` (`wrappers.dfy`): `Option`, which stands for a pandas missing
  value, and `Result`, which stands for an exception that ends the run.

The network call is the parameter `fetch`, a total function from a
request's form parameters to the reply text. A pandas missing value is
`None`. Exceptions are `Err` values:

- an empty key list: the mapping frame has no `To` column, which gives
  `MissingColumn("To")`;
- a mapping frame with two `To` columns (`.str` on a frame raises
  AttributeError) or two `From` columns (`groupby` raises ValueError),
  which gives `RepeatedColumn`;
- a missing `To` value under the `eco:` mask, which gives `MissingTo`;
- inside the ID mapper, the first chunk that fails, which gives
  `Mapping(ChunkFailed(chunk, why))`. Two things make a chunk fail:
  - a reply without a line break (`ResponseTooShort`): after the header
    row is dropped the index is empty, so `temp_df.index[-1]` raises
    IndexError;
  - a missing key in the chunk (`NonStringItem`): `" ".join` raises a
    TypeError before that chunk's request is sent.

The missing key needs care. A target accession without a `.` has no key.
`unique()` keeps the missing value and passes it to the ID mapper. The
chunks before the one that holds it are still requested (KEGG.py:46-84),
and any of their replies may fail first. The run fails either way, as
`UnversionedAccessionFails` states.

The retry loop retries only the transport (KEGG.py:66-76). Shaping the
reply happens outside the `try`. So a reply that cannot be shaped ends the
run and is not retried. The model follows the code here.

## Model

| member | source | states |
|---|---|---|
| `Chunking.ChunksConcat` | workflow/scripts/KEGG.py:18-19 | concatenating the chunks (`Chunks`) gives back the list exactly, in order |
| `Chunking.ChunkAt` | workflow/scripts/KEGG.py:18-19 | chunk k (`Chunks`) is the slice from k*n to (k+1)*n, clamped to the list's end |
| `Chunking.ChunkSizes` | workflow/scripts/KEGG.py:18-19 | every chunk (`Chunks`) is non-empty and at most n long; every chunk but the last is exactly n long |
| `Chunking.ChunkCount` | workflow/scripts/KEGG.py:18 | the chunk count c (`Chunks`) satisfies len <= c*n < len + n, so it is the ceiling of len/n; an empty list gives zero chunks |
| `Chunking.ChunksChecked` | workflow/scripts/KEGG.py:18 | a zero size fails (range raises); a negative size gives no chunks; a positive size gives chunks that concatenate to the list |
| `Text.Split` | workflow/scripts/KEGG.py:79 | str.split gives one piece more than there are separators, and no piece contains the separator |
| `Text.JoinSplit` | workflow/scripts/KEGG.py:79 | re-joining (`Join`) the pieces of a split gives back the text |
| `Text.SplitJoin` | workflow/scripts/KEGG.py:53 | splitting a join (`Join`) of separator-free pieces gives back the pieces |
| `IdMapping.Present` | workflow/scripts/KEGG.py:53 | a chunk's identifiers can be joined exactly when none is missing, and then they are the chunk's items in order |
| `IdMapping.QueryCarriesChunk` | workflow/scripts/KEGG.py:49-54 | a chunk's query parameter (`ChunkRequest`, `Join`) holds exactly its identifiers, in order, when no identifier contains a space |
| `IdMapping.ParseResponse` | workflow/scripts/KEGG.py:79-82 | a reply with L lines gives L-2 rows, row k being the tab-split of line k+1, with the first line's fields as column names; a reply without a line break fails |
| `IdMapping.ParseRender` | workflow/scripts/KEGG.py:79-82 | shaping a reply in the service's tab format gives back the table it carries |
| `IdMapping.CollectSucceeds` | workflow/scripts/KEGG.py:46-84 | the accumulation (`Collect`, `ChunkTable`) succeeds iff every chunk can be joined and its reply shaped |
| `IdMapping.CollectFails` | workflow/scripts/KEGG.py:46-84 | a failed accumulation (`Collect`) names the first chunk that fails, and the reason is that chunk's own failure: a missing identifier or a reply without a line break |
| `IdMapping.CollectRows` | workflow/scripts/KEGG.py:83 | the accumulated rows (`Collect`, `Append`) are the rows of the chunks' replies, concatenated in chunk order |
| `IdMapping.MapRowsComplete` | workflow/scripts/KEGG.py:83-86 | the result (`MappedTable`) has no duplicate rows, and every row of every chunk's reply is in it |
| `IdMapping.MapRowsSound` | workflow/scripts/KEGG.py:83-86 | every row of the result (`MappedTable`) comes from some chunk's reply |
| `IdMapping.MapOrder` | workflow/scripts/KEGG.py:86 | the kept rows (`MappedTable`) are in the order of their first occurrences in the accumulated rows |
| `IdMapping.MissingItemFails` | workflow/scripts/KEGG.py:46-54 | a missing item anywhere in the query fails the mapping (`MappedTable`); when every reply has a line break, the failure is the join's |
| `IdMapping.MapDbIdentifiers` | workflow/scripts/KEGG.py:39-86 | the loop's result is the accumulator specification (`MappedTable`); it sends one request per chunk, in chunk order, each carrying that chunk's identifiers; it stops at the first failing chunk, after that chunk's request when the reply fails and before it when the join fails |
| `Sequences.Dedup` | workflow/scripts/KEGG.py:86 | de-duplication leaves no duplicates and keeps exactly the elements of its input |
| `Sequences.DedupOrder` | workflow/scripts/KEGG.py:109 | de-duplication keeps elements in order of first appearance |
| `Sequences.DedupUnique` | workflow/scripts/KEGG.py:86 | any duplicate-free sequence with exactly the input's elements, in order of first appearance, is the de-duplication, so those properties define it |
| `KeggAnnotation.KeyOf` | workflow/scripts/KEGG.py:106 | the key is the longest prefix before the accession's last '.', and it is missing exactly when the accession has no '.' |
| `KeggAnnotation.QueryList` | workflow/scripts/KEGG.py:109 | the query list is the distinct keys, missing ones included, in order of first appearance |
| `KeggAnnotation.UnversionedAccessionFails` | workflow/scripts/KEGG.py:106-110 | one accession without a '.' makes the whole run (`AnnotationsOf`) fail inside the ID mapper; when every reply has a line break it is the query join that fails |
| `KeggAnnotation.ColumnIndex` | workflow/scripts/KEGG.py:113-115 | a column name is absent, at exactly one position, or at two or more positions |
| `KeggAnnotation.ToPairs` | workflow/scripts/KEGG.py:113-115 | a missing or repeated To column, a row without a To value, or a missing or repeated From column each fail, in that order; otherwise pair i is row i's From value (missing if the row is short) and To value |
| `KeggAnnotation.GroupAt` | workflow/scripts/KEGG.py:114-115 | a key has a group (`GroupToLists`) iff some row carries it, and the group holds that key's To values in row order |
| `KeggAnnotation.ValuesPresent` | workflow/scripts/KEGG.py:114-115 | a key's list of To values is non-empty iff some row carries the key |
| `KeggAnnotation.EcoValues` | workflow/scripts/KEGG.py:113-114 | filtering rows by 'eco:' (`EcoPairs`) and then listing a key's values is the same as filtering that key's value list |
| `KeggAnnotation.EcoGroupIsFiltered` | workflow/scripts/KEGG.py:113-118 | a key's eco list (`GroupToLists` of `EcoPairs`) exists iff its all-tags list has an 'eco:' value; it is the 'eco:' part of that list and a subsequence of it |
| `KeggAnnotation.LeftMerge` | workflow/scripts/KEGG.py:121-122 | a left merge keeps every left row once, in order, and attaches the key's list or missing |
| `KeggAnnotation.AnnotateRows` | workflow/scripts/KEGG.py:106-123 | the output (`Annotate`) has one row per hit, in order; each row has its key, that key's all-tags list and that key's eco list, each missing where absent |
| `KeggAnnotation.EcoTagsWithinAllTags` | workflow/scripts/KEGG.py:113-123 | on every output row (`Annotate`), the eco list is the 'eco:' part of the all-tags list, and it is missing exactly when that part is empty |
| `KeggAnnotation.GetKeggAnnotations` | workflow/scripts/KEGG.py:106-123 | the annotator's result is the pipeline specification (`AnnotationsOf`): query list, ID mapping, grouping and both merges |

## Left out

- The HTTP request, URL encoding and UTF-8 decoding (KEGG.py:57-58, 63,
  68-69) are network I/O. They are the total function `fetch`, and each
  request is recorded as its form parameters.
- The retry-until-success loop with its ten-second sleep (KEGG.py:66-76)
  only handles transport failures. `fetch` always answers.
- The `verbose` progress messages (KEGG.py:61-62, 72-74) are console
  output.
- Reading the DIAMOND CSV, writing the result and the `snakemake` entry
  point (KEGG.py:105, 125, 127) are file I/O. The hits come in as a
  sequence and the annotated rows go out as one.
- The twelve DIAMOND columns (KEGG.py:89-102) pass through unchanged. Only
  `Target accession` is a field of its own; the other eleven are one
  opaque field.
- Pandas bookkeeping is not modelled: dtypes, the index, group key
  ordering (groups are a map, and the merges restore hit order anyway),
  the `validate='m:1'` check (it cannot fail, since grouping leaves one
  row per key) and the `From_x`/`From_y` columns dropped at KEGG.py:123.
- `IdMapping.Append`: when two replies have different headers, pandas
  aligns their columns by name. The model keeps the first reply's header
  and appends rows by position. It also does not pad short rows.
- `KeggAnnotation.KeyOf`: the regular expression's `.` does not match a
  line break. Accessions that contain line breaks are not modelled.
