/** `get_kegg_annotations` of workflow/scripts/KEGG.py: derive a lookup key
    from each hit's target accession, map the distinct keys to KEGG
    identifiers, group the mapped identifiers per key (all of them, and
    those of E. coli, tagged "eco:"), and left-join both groupings back onto
    the hits. Reading and writing the CSV files is not part of this model:
    the hits come in as a sequence and the annotated rows go out as one. */
module KeggAnnotation {
  import opened Wrappers
  import opened Sequences
  import opened Text
  import IdMapping

  const FromDb: string := "ACC+ID"
  const ToDb: string := "KEGG_ID"
  const EcoTag: string := "eco:"

  /** One DIAMOND hit: its target accession, and the other eleven columns carried through untouched. */
  datatype Hit = Hit(targetAccession: string, otherColumns: seq<string>)

  /** One mapping row reduced to its From and To columns; a From missing from a short row is `None`. */
  datatype Pair = Pair(from: Option<string>, to: string)

  /** A left row with what the merge attached to it (`None`: no match). */
  datatype Merged<R> = Merged(left: R, attached: Option<seq<string>>)

  /** A hit with its lookup key (the `Target` column). */
  datatype Targeted = Targeted(hit: Hit, target: Option<string>)

  /** One output row: the hit, its key, its "KEGG eco tag" and its "KEGG all tags" lists. */
  datatype Annotated = Annotated(hit: Hit, target: Option<string>, ecoTags: Option<seq<string>>, allTags: Option<seq<string>>)

  /** The exceptions that end a run: a failure inside the ID mapper (a
      missing key reaching its query join, or a reply it cannot shape), a
      missing column (KeyError), a repeated column (`.str` on a frame raises
      AttributeError, `groupby` on it ValueError), a missing To value under
      the "eco:" mask (ValueError). */
  datatype AnnotError =
    | Mapping(cause: IdMapping.MapError)
    | MissingColumn(name: string)
    | RepeatedColumn(name: string)
    | MissingTo

  /** Where a column name sits in the header: nowhere, at one position, or at several. */
  datatype ColumnLookup = Absent | Unique(index: nat) | Repeated

  /** The `Target` key: the accession up to its last '.', missing when there is no '.'. */
  function KeyOf(accession: string): (key: Option<string>)
    ensures key.None? <==> '.' !in accession
    ensures key.Some? ==>
      && |key.value| < |accession|
      && accession[..|key.value|] == key.value
      && accession[|key.value|] == '.'
      && '.' !in accession[|key.value| + 1..]
  {
    if |accession| == 0 then None
    else if accession[|accession| - 1] == '.' then Some(accession[..|accession| - 1])
    else
      var key := KeyOf(accession[..|accession| - 1]);
      assert key.Some? ==> accession[|key.value| + 1..] == accession[..|accession| - 1][|key.value| + 1..] + [accession[|accession| - 1]];
      key
  }

  function Keys(hits: seq<Hit>): (keys: seq<Option<string>>)
    ensures |keys| == |hits|
  {
    seq(|hits|, i requires 0 <= i < |hits| => KeyOf(hits[i].targetAccession))
  }

  /** The query list: the keys de-duplicated in order of first appearance.
      A missing key survives `unique()` and is passed on to the ID mapper. */
  function QueryList(keys: seq<Option<string>>): (r: seq<Option<string>>)
    ensures NoDup(r)
    ensures forall x :: x in r <==> x in keys
    ensures forall i, j :: 0 <= i < j < |r| ==> FirstIndex(keys, r[i]) < FirstIndex(keys, r[j])
  {
    DedupOrder(keys);
    Dedup(keys)
  }

  /** Where a column sits, by name; pandas selects every column of that name. */
  function ColumnIndex(columns: seq<string>, name: string): (r: ColumnLookup)
    ensures r.Absent? <==> name !in columns
    ensures r.Unique? ==>
      && r.index < |columns| && columns[r.index] == name
      && forall k :: 0 <= k < |columns| && columns[k] == name ==> k == r.index
    ensures r.Repeated? ==> exists j, k :: 0 <= j < k < |columns| && columns[j] == name && columns[k] == name
  {
    if name !in columns then Absent
    else
      var i := FirstIndex(columns, name);
      if name in columns[i + 1..] then
        var j :| 0 <= j < |columns[i + 1..]| && columns[i + 1..][j] == name;
        assert columns[i] == name && columns[i + 1 + j] == name;
        Repeated
      else
        assert forall k :: i < k < |columns| ==> columns[k] == columns[i + 1..][k - i - 1];
        assert forall k :: 0 <= k < i ==> columns[k] == columns[..i][k];
        Unique(i)
  }

  function Field(row: seq<string>, k: nat): Option<string>
  {
    if k < |row| then Some(row[k]) else None
  }

  /** The frame has one To column and every row has a value in it. */
  predicate ToFilled(t: IdMapping.Table)
  {
    && ColumnIndex(t.columns, "To").Unique?
    && forall i :: 0 <= i < |t.rows| ==> ColumnIndex(t.columns, "To").index < |t.rows[i]|
  }

  /** The From and To columns of the mapping frame, checked in the order the
      script touches them: `kegg_ids['To']` and its `.str`, the "eco:" mask
      over it, then `groupby('From')`. */
  function ToPairs(t: IdMapping.Table): (r: Result<seq<Pair>, AnnotError>)
    ensures ColumnIndex(t.columns, "To").Absent? ==> r == Err(MissingColumn("To"))
    ensures ColumnIndex(t.columns, "To").Repeated? ==> r == Err(RepeatedColumn("To"))
    ensures r == Err(MissingTo) <==> ColumnIndex(t.columns, "To").Unique? && !ToFilled(t)
    ensures r == Err(MissingColumn("From")) <==> ToFilled(t) && ColumnIndex(t.columns, "From").Absent?
    ensures r == Err(RepeatedColumn("From")) <==> ToFilled(t) && ColumnIndex(t.columns, "From").Repeated?
    ensures r.Ok? <==> ToFilled(t) && ColumnIndex(t.columns, "From").Unique?
    ensures r.Ok? ==> |r.value| == |t.rows| && forall i :: 0 <= i < |t.rows| ==>
      r.value[i] == Pair(Field(t.rows[i], ColumnIndex(t.columns, "From").index), t.rows[i][ColumnIndex(t.columns, "To").index])
  {
    match ColumnIndex(t.columns, "To")
    case Absent => Err(MissingColumn("To"))
    case Repeated => Err(RepeatedColumn("To"))
    case Unique(ti) =>
      if exists i | 0 <= i < |t.rows| :: |t.rows[i]| <= ti then Err(MissingTo)
      else
        match ColumnIndex(t.columns, "From")
        case Absent => Err(MissingColumn("From"))
        case Repeated => Err(RepeatedColumn("From"))
        case Unique(fi) =>
          Ok(seq(|t.rows|, i requires 0 <= i < |t.rows| => Pair(Field(t.rows[i], fi), t.rows[i][ti])))
  }

  /** `str.contains('eco:')`: the pattern has no regular-expression
      metacharacters, so this is a plain substring test. */
  predicate IsEcoTag(to: string)
  {
    Contains(to, EcoTag)
  }

  predicate IsEcoPair(p: Pair)
  {
    IsEcoTag(p.to)
  }

  /** The rows kept by the mask `kegg_ids['To'].str.contains('eco:')`. */
  function EcoPairs(pairs: seq<Pair>): seq<Pair>
  {
    Filter(pairs, IsEcoPair)
  }

  /** The To values paired with `key`, in row order. */
  function ValuesOf(pairs: seq<Pair>, key: string): seq<string>
  {
    if |pairs| == 0 then []
    else
      var p := pairs[|pairs| - 1];
      ValuesOf(pairs[..|pairs| - 1], key) + (if p.from == Some(key) then [p.to] else [])
  }

  /** `groupby('From')['To'].apply(list)`: one list per From key that occurs;
      rows without a From are dropped. */
  function GroupToLists(pairs: seq<Pair>): map<string, seq<string>>
  {
    if |pairs| == 0 then map[]
    else
      var g := GroupToLists(pairs[..|pairs| - 1]);
      var p := pairs[|pairs| - 1];
      match p.from
      case None => g
      case Some(k) => g[k := (if k in g then g[k] else []) + [p.to]]
  }

  /** A key has a group exactly when some row carries it, and the group
      holds that key's To values in row order. */
  lemma {:induction false} GroupAt(pairs: seq<Pair>, key: string)
    ensures key in GroupToLists(pairs) <==> exists i :: 0 <= i < |pairs| && pairs[i].from == Some(key)
    ensures key in GroupToLists(pairs) ==> GroupToLists(pairs)[key] == ValuesOf(pairs, key)
  {
    ValuesPresent(pairs, key);
    if |pairs| > 0 {
      var p := pairs[..|pairs| - 1];
      GroupAt(p, key);
      ValuesPresent(p, key);
      if pairs[|pairs| - 1].from != Some(key) {
        assert ValuesOf(pairs, key) == ValuesOf(p, key) + [];
      }
    }
  }

  /** A key's E. coli values are the "eco:" values among all its values. */
  lemma {:induction false} EcoValues(pairs: seq<Pair>, key: string)
    ensures ValuesOf(EcoPairs(pairs), key) == Filter(ValuesOf(pairs, key), IsEcoTag)
  {
    if |pairs| > 0 {
      var p := pairs[..|pairs| - 1];
      var last := pairs[|pairs| - 1];
      EcoValues(p, key);
      var vs := ValuesOf(p, key);
      if last.from == Some(key) {
        assert (vs + [last.to])[..|vs|] == vs;
      } else {
        assert vs + [] == vs;
      }
    }
  }

  /** A key has an "eco" group exactly when it has a group with some "eco:"
      value, and that group is the "eco:" part of the key's "all tags" list,
      in the same order. */
  lemma {:induction false} EcoGroupIsFiltered(pairs: seq<Pair>, key: string)
    ensures var eco, all := GroupToLists(EcoPairs(pairs)), GroupToLists(pairs);
      key in eco <==> key in all && Filter(all[key], IsEcoTag) != []
    ensures var eco, all := GroupToLists(EcoPairs(pairs)), GroupToLists(pairs);
      key in eco ==> eco[key] == Filter(all[key], IsEcoTag) && SubsequenceOf(eco[key], all[key])
  {
    var eco, all := GroupToLists(EcoPairs(pairs)), GroupToLists(pairs);
    EcoValues(pairs, key);
    GroupAt(EcoPairs(pairs), key);
    GroupAt(pairs, key);
    ValuesPresent(EcoPairs(pairs), key);
    ValuesPresent(pairs, key);
    if key in all {
      FilterIsSubsequence(all[key], IsEcoTag);
    }
  }

  /** A key has values exactly when some row carries it. */
  lemma {:induction false} ValuesPresent(pairs: seq<Pair>, key: string)
    ensures ValuesOf(pairs, key) != [] <==> exists i :: 0 <= i < |pairs| && pairs[i].from == Some(key)
  {
    if |pairs| > 0 {
      var p := pairs[..|pairs| - 1];
      ValuesPresent(p, key);
      assert forall i :: 0 <= i < |p| ==> p[i] == pairs[i];
    }
  }

  /** The value a left merge attaches for `key`: the key's list, or missing. */
  function Lookup(g: map<string, seq<string>>, key: Option<string>): Option<seq<string>>
  {
    match key
    case None => None
    case Some(k) => if k in g then Some(g[k]) else None
  }

  /** `merge(how='left', validate='m:1')` against a right side with one row
      per key: every left row kept once, in order, with the matching list or
      missing attached. */
  function LeftMerge<R>(left: seq<R>, key: R -> Option<string>, right: map<string, seq<string>>): (out: seq<Merged<R>>)
    ensures |out| == |left|
    ensures forall i :: 0 <= i < |left| ==> out[i].left == left[i] && out[i].attached == Lookup(right, key(left[i]))
  {
    if |left| == 0 then []
    else [Merged(left[0], Lookup(right, key(left[0])))] + LeftMerge(left[1..], key, right)
  }

  function TargetOf(t: Targeted): Option<string>
  {
    t.target
  }

  function MergedTargetOf(m: Merged<Targeted>): Option<string>
  {
    m.left.target
  }

  /** Everything after the mapping call (KEGG.py lines 106 and 113-123). */
  function Annotate(hits: seq<Hit>, mapping: IdMapping.Table): Result<seq<Annotated>, AnnotError>
  {
    match ToPairs(mapping)
    case Err(e) => Err(e)
    case Ok(pairs) =>
      var ecoGroups := GroupToLists(EcoPairs(pairs));
      var allGroups := GroupToLists(pairs);
      var targeted := seq(|hits|, i requires 0 <= i < |hits| => Targeted(hits[i], KeyOf(hits[i].targetAccession)));
      var withEco := LeftMerge(targeted, TargetOf, ecoGroups);
      var withAll := LeftMerge(withEco, MergedTargetOf, allGroups);
      Ok(seq(|withAll|, i requires 0 <= i < |withAll| =>
        Annotated(withAll[i].left.left.hit, withAll[i].left.left.target, withAll[i].left.attached, withAll[i].attached)))
  }

  /** The whole of `get_kegg_annotations`, with the ID mapper's specification in place of the call. */
  function AnnotationsOf(hits: seq<Hit>, fetch: IdMapping.Request -> string): Result<seq<Annotated>, AnnotError>
  {
    match IdMapping.MappedTable(FromDb, ToDb, QueryList(Keys(hits)), fetch)
    case Err(e) => Err(Mapping(e))
    case Ok(t) => Annotate(hits, t)
  }

  /** Both merges keep the hits, their number and their order; each row
      carries its key and that key's lists, or missing where the key has none. */
  lemma AnnotateRows(hits: seq<Hit>, mapping: IdMapping.Table)
    requires Annotate(hits, mapping).Ok?
    ensures ToPairs(mapping).Ok?
    ensures var out, pairs := Annotate(hits, mapping).value, ToPairs(mapping).value;
      && |out| == |hits|
      && forall i :: 0 <= i < |out| ==>
        && out[i].hit == hits[i]
        && out[i].target == KeyOf(hits[i].targetAccession)
        && out[i].allTags == Lookup(GroupToLists(pairs), out[i].target)
        && out[i].ecoTags == Lookup(GroupToLists(EcoPairs(pairs)), out[i].target)
  {
  }

  /** On every output row the "eco" list is the "eco:" part of the "all tags"
      list, and it is missing exactly when that part is empty or there is no
      "all tags" list. */
  lemma EcoTagsWithinAllTags(hits: seq<Hit>, mapping: IdMapping.Table, i: nat)
    requires Annotate(hits, mapping).Ok? && i < |hits|
    ensures var row := Annotate(hits, mapping).value[i];
      row.ecoTags.Some? <==> row.allTags.Some? && Filter(row.allTags.value, IsEcoTag) != []
    ensures var row := Annotate(hits, mapping).value[i];
      row.ecoTags.Some? ==>
        row.ecoTags.value == Filter(row.allTags.value, IsEcoTag) && SubsequenceOf(row.ecoTags.value, row.allTags.value)
  {
    AnnotateRows(hits, mapping);
    var row := Annotate(hits, mapping).value[i];
    if row.target.Some? {
      EcoGroupIsFiltered(ToPairs(mapping).value, row.target.value);
    }
  }

  /** A single accession without a '.' ends the run inside the ID mapper,
      before any annotation is written; when every reply has a line break,
      it is the query join of the chunk holding the missing key that fails. */
  lemma UnversionedAccessionFails(hits: seq<Hit>, fetch: IdMapping.Request -> string, i: nat)
    requires i < |hits| && '.' !in hits[i].targetAccession
    ensures AnnotationsOf(hits, fetch).Err? && AnnotationsOf(hits, fetch).error.Mapping?
    ensures (forall req :: '\n' in fetch(req)) ==>
      AnnotationsOf(hits, fetch).error.cause.why == IdMapping.NonStringItem
  {
    assert Keys(hits)[i] == None;
    IdMapping.MissingItemFails(FromDb, ToDb, QueryList(Keys(hits)), fetch);
  }

  /** The annotator. */
  method GetKeggAnnotations(hits: seq<Hit>, fetch: IdMapping.Request -> string) returns (r: Result<seq<Annotated>, AnnotError>)
    ensures r == AnnotationsOf(hits, fetch)
  {
    var queryIds := QueryList(Keys(hits));
    var keggIds, _ := IdMapping.MapDbIdentifiers(FromDb, ToDb, queryIds, fetch);
    if keggIds.Err? {
      return Err(Mapping(keggIds.error));
    }
    r := Annotate(hits, keggIds.value);
  }
}
