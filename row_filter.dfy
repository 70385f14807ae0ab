/** `transform`: fetch a CSV object, keep the rows whose `value` is below
    50, and store the result under another key as `text/csv`. CSV parsing
    and printing are not modelled: a parsed file is a `Table`, and a file
    that cannot be fetched or parsed (or has no `value` column) is `None`. */
module RowFilter {
  import opened Outcomes

  /** One row: its `value` column and the text of its other columns. */
  datatype Row = Row(value: int, others: seq<string>)

  /** A parsed CSV file: the header's column names and the rows. */
  datatype Table = Table(columns: seq<string>, rows: seq<Row>)

  /** Rows whose `value` is strictly below this are kept. */
  const Limit: int := 50

  /** `df[df['value'] < 50]`: only rows below the limit, never more rows
      than the input has. */
  function KeepBelowLimit(rows: seq<Row>): (kept: seq<Row>)
    ensures forall r :: r in kept ==> r.value < Limit
    ensures |kept| <= |rows|
  {
    if rows == [] then []
    else (if rows[0].value < Limit then [rows[0]] else []) + KeepBelowLimit(rows[1..])
  }

  /** Every row below the limit is kept as often as it occurs in the
      input, and no other row is kept. */
  lemma {:induction false} KeptRowsCounted(rows: seq<Row>, r: Row)
    ensures multiset(KeepBelowLimit(rows))[r] == if r.value < Limit then multiset(rows)[r] else 0
    decreases |rows|
  {
    if rows != [] {
      KeptRowsCounted(rows[1..], r);
      assert rows == [rows[0]] + rows[1..];
      assert multiset(rows) == multiset{rows[0]} + multiset(rows[1..]);
    }
  }

  /** `a` is obtained from `b` by dropping elements, the rest keeping their
      order. */
  predicate IsSubsequence(a: seq<Row>, b: seq<Row>)
    decreases |b|
  {
    if a == [] then true
    else if b == [] then false
    else (a[0] == b[0] && IsSubsequence(a[1..], b[1..])) || IsSubsequence(a, b[1..])
  }

  /** The kept rows are in their original relative order. */
  lemma {:induction false} KeptInOrder(rows: seq<Row>)
    ensures IsSubsequence(KeepBelowLimit(rows), rows)
    decreases |rows|
  {
    if rows != [] {
      KeptInOrder(rows[1..]);
      var rest := KeepBelowLimit(rows[1..]);
      if rows[0].value < Limit {
        assert KeepBelowLimit(rows) == [rows[0]] + rest;
        assert ([rows[0]] + rest)[1..] == rest;
      } else {
        assert KeepBelowLimit(rows) == rest;
      }
    }
  }

  /** Filtering a concatenation filters each part in turn. */
  lemma {:induction false} KeepDistributes(a: seq<Row>, b: seq<Row>)
    ensures KeepBelowLimit(a + b) == KeepBelowLimit(a) + KeepBelowLimit(b)
    decreases |a|
  {
    if a != [] {
      assert (a + b)[0] == a[0] && (a + b)[1..] == a[1..] + b;
      KeepDistributes(a[1..], b);
    } else {
      assert a + b == b;
    }
  }

  /** Rows that are all below the limit are kept as they are. */
  lemma {:induction false} KeepAllBelow(rows: seq<Row>)
    requires forall i :: 0 <= i < |rows| ==> rows[i].value < Limit
    ensures KeepBelowLimit(rows) == rows
    decreases |rows|
  {
    if rows != [] {
      KeepAllBelow(rows[1..]);
      assert [rows[0]] + rows[1..] == rows;
    }
  }

  /** Filtering the output again changes nothing. */
  lemma KeepIdempotent(rows: seq<Row>)
    ensures KeepBelowLimit(KeepBelowLimit(rows)) == KeepBelowLimit(rows)
  {
    var kept := KeepBelowLimit(rows);
    assert forall i :: 0 <= i < |kept| ==> kept[i] in kept;
    KeepAllBelow(kept);
  }

  /** The content type the result is stored with. */
  const CsvContentType: string := "text/csv"

  /** The `put_object` call `transform` makes. */
  datatype PutRequest = PutRequest(bucket: string, key: string, contentType: string, body: Table)

  /** `transform(bucket, input_file, output_file)`, with `fetch(bucket, key)`
      standing for `get_object` followed by `read_csv`. When the fetch fails
      the error is swallowed and nothing is stored. Otherwise the filtered
      table, with the source's header, is stored under the output key: the
      rows below the limit, each as often as in the source and in the
      source's order. */
  function Transform(bucket: string, inputKey: string, outputKey: string,
                     fetch: (string, string) -> Option<Table>): (put: Option<PutRequest>)
    ensures put.None? <==> fetch(bucket, inputKey).None?
    ensures put.Some? ==>
      && put.value.bucket == bucket
      && put.value.key == outputKey
      && put.value.contentType == CsvContentType
      && put.value.body.columns == fetch(bucket, inputKey).value.columns
      && (forall r :: multiset(put.value.body.rows)[r]
           == if r.value < Limit then multiset(fetch(bucket, inputKey).value.rows)[r] else 0)
      && IsSubsequence(put.value.body.rows, fetch(bucket, inputKey).value.rows)
  {
    match fetch(bucket, inputKey)
    case None => None
    case Some(table) =>
      forall r ensures multiset(KeepBelowLimit(table.rows))[r] == if r.value < Limit then multiset(table.rows)[r] else 0 {
        KeptRowsCounted(table.rows, r);
      }
      KeptInOrder(table.rows);
      Some(PutRequest(bucket, outputKey, CsvContentType, Table(table.columns, KeepBelowLimit(table.rows))))
  }

  /** When no row is below the limit the stored file is the header alone. */
  lemma HeaderOnlyWhenNothingPasses(bucket: string, inputKey: string, outputKey: string,
                                    fetch: (string, string) -> Option<Table>)
    requires fetch(bucket, inputKey).Some?
    requires forall i :: 0 <= i < |fetch(bucket, inputKey).value.rows| ==> fetch(bucket, inputKey).value.rows[i].value >= Limit
    ensures Transform(bucket, inputKey, outputKey, fetch).Some?
    ensures Transform(bucket, inputKey, outputKey, fetch).value.body
         == Table(fetch(bucket, inputKey).value.columns, [])
  {
  }
}
