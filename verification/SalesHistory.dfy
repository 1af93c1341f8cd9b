/** The derived sales table and its whole-day replacement, as written by `syncOrders` of
    apps/worker/src/shopify-sync.ts and `rebuildDays` of packages/pos/src/ingest.ts. */
module SalesHistory {
  import opened Numbers
  import opened Sorting
  import opened Wrappers

  /** `day` is the day marker, a day number. */
  datatype Row = Row(productId: string, day: int, channel: string, locationId: Option<string>, quantity: real,
                     revenue: real)

  /** Rows of one channel on some days. */
  function On(channel: string, days: set<int>): Row -> bool { (r: Row) => r.channel == channel && r.day in days }

  function Off(channel: string, days: set<int>): Row -> bool { (r: Row) => !(r.channel == channel && r.day in days) }

  /** The specification: the channel's rows on `days` go, the new rows come. */
  function Replace(table: seq<Row>, channel: string, days: set<int>, rows: seq<Row>): seq<Row> {
    Filter(table, Off(channel, days)) + rows
  }

  ghost predicate AllOn(rows: seq<Row>, channel: string, days: set<int>) {
    forall i :: 0 <= i < |rows| ==> On(channel, days)(rows[i])
  }

  class Table {
    var rows: seq<Row>

    constructor ()
      ensures rows == []
    {
      rows := [];
    }

    method DeleteMany(channel: string, days: seq<int>)
      modifies this
      ensures rows == Filter(old(rows), Off(channel, DaysOf(days)))
    {
      rows := Filter(rows, Off(channel, DaysOf(days)));
    }

    method CreateMany(data: seq<Row>)
      modifies this
      ensures rows == old(rows) + data
    {
      rows := rows + data;
    }

    /** Writes the rows chunk by chunk. */
    method CreateInChunks(data: seq<Row>, chunk: nat)
      requires chunk > 0
      modifies this
      ensures rows == old(rows) + data
    {
      var i := 0;
      while i < |data|
        invariant 0 <= i <= |data|
        invariant rows == old(rows) + data[..i]
      {
        var j := MinInt(i + chunk, |data|);
        assert data[..i] + data[i..j] == data[..j];
        CreateMany(data[i..j]);
        i := j;
      }
      assert data[..|data|] == data;
    }

    /** The order sync: every delete chunk first, then every insert chunk. Whatever the chunk size,
        the result is the one-shot replacement. */
    method ReplaceDays(channel: string, dates: seq<int>, data: seq<Row>, chunk: nat)
      requires chunk > 0
      modifies this
      ensures rows == Replace(old(rows), channel, DaysOf(dates), data)
    {
      var i := 0;
      FilterAll(rows, Off(channel, DaysOf(dates[..0])));
      while i < |dates|
        invariant 0 <= i <= |dates|
        invariant rows == Filter(old(rows), Off(channel, DaysOf(dates[..i])))
      {
        var j := MinInt(i + chunk, |dates|);
        DeleteTwice(old(rows), channel, dates, i, j);
        DeleteMany(channel, dates[i..j]);
        i := j;
      }
      assert dates[..|dates|] == dates;
      CreateInChunks(data, chunk);
    }
  }

  function DaysOf(days: seq<int>): set<int> { set d | d in days }

  lemma DeleteTwice(table: seq<Row>, channel: string, dates: seq<int>, i: nat, j: nat)
    requires i <= j <= |dates|
    ensures Filter(Filter(table, Off(channel, DaysOf(dates[..i]))), Off(channel, DaysOf(dates[i..j])))
         == Filter(table, Off(channel, DaysOf(dates[..j])))
  {
    assert dates[..j] == dates[..i] + dates[i..j];
    FilterTwice(table, Off(channel, DaysOf(dates[..i])), Off(channel, DaysOf(dates[i..j])),
      Off(channel, DaysOf(dates[..j])));
  }

  // ---------------------------------------------------------------- what a replacement leaves

  /** The rebuilt days hold exactly the new rows; every other row of the table is as it was. */
  lemma ReplaceIsExact(table: seq<Row>, channel: string, days: set<int>, rows: seq<Row>)
    requires AllOn(rows, channel, days)
    ensures Filter(Replace(table, channel, days, rows), On(channel, days)) == rows
    ensures Filter(Replace(table, channel, days, rows), Off(channel, days)) == Filter(table, Off(channel, days))
  {
    var kept := Filter(table, Off(channel, days));
    FilterProperties(table, Off(channel, days));
    FilterConcat(kept, rows, On(channel, days));
    FilterConcat(kept, rows, Off(channel, days));
    FilterNone(kept, On(channel, days));
    FilterAll(kept, Off(channel, days));
    RowsMembers(rows, channel, days);
    FilterAll(rows, On(channel, days));
    FilterNone(rows, Off(channel, days));
    assert [] + rows == rows && kept + [] == kept;
  }

  lemma RowsMembers(rows: seq<Row>, channel: string, days: set<int>)
    requires AllOn(rows, channel, days)
    ensures forall r :: r in rows ==> On(channel, days)(r)
  {}

  /** Replacing again with the same rows changes nothing. */
  lemma ReplaceIdempotent(table: seq<Row>, channel: string, days: set<int>, rows: seq<Row>)
    requires AllOn(rows, channel, days)
    ensures Replace(Replace(table, channel, days, rows), channel, days, rows) == Replace(table, channel, days, rows)
  {
    ReplaceIsExact(table, channel, days, rows);
  }

  /** Replacements of two channels commute: each touches only its own rows. */
  lemma ReplacementsCommute(table: seq<Row>, c: string, days: set<int>, rows: seq<Row>, d: string, others: set<int>,
                            news: seq<Row>)
    requires c != d && AllOn(rows, c, days) && AllOn(news, d, others)
    ensures multiset(Replace(Replace(table, c, days, rows), d, others, news))
         == multiset(Replace(Replace(table, d, others, news), c, days, rows))
  {
    OtherChannelKept(table, c, days, rows, d, others);
    OtherChannelKept(table, d, others, news, c, days);
    var p, q := Off(c, days), Off(d, others);
    FilterTwice(table, p, q, OffBoth(c, days, d, others));
    FilterTwice(table, q, p, OffBoth(c, days, d, others));
  }

  function OffBoth(c: string, days: set<int>, d: string, others: set<int>): Row -> bool {
    (r: Row) => Off(c, days)(r) && Off(d, others)(r)
  }

  lemma OtherChannelKept(table: seq<Row>, c: string, days: set<int>, rows: seq<Row>, d: string, others: set<int>)
    requires c != d && AllOn(rows, c, days)
    ensures Filter(Replace(table, c, days, rows), Off(d, others))
      == Filter(Filter(table, Off(c, days)), Off(d, others)) + rows
  {
    FilterConcat(Filter(table, Off(c, days)), rows, Off(d, others));
    RowsMembers(rows, c, days);
    FilterAll(rows, Off(d, others));
  }
}
