/** `scrape_tweets`: the search cursor, capped at `limit`, mapped through
    `tweet_to_row` into a table with a fixed nine-name header. The cursor is
    the sequence of statuses the search yields, in the API's ranking order;
    paging and rate-limit waits happen inside it and do not show in its output. */
module Collector {
  import opened Wrappers
  import opened Records
  import opened Normalizer

  /** The header of the table, one name per row field, in field order. */
  const Columns: seq<string> :=
    ["username", "description", "location", "following", "followers",
     "totaltweets", "retweetcount", "text", "hashtags"]

  function OptionalText(v: Option<string>): Cell {
    match v
    case Some(s) => Str(s)
    case None => Null
  }

  /** The nine cells of a row, in the order `tweet_to_row` lists them. */
  function Fields(row: Row): (cells: seq<Cell>)
    ensures |cells| == |Columns| == 9
  {
    [Str(row.username), OptionalText(row.description), OptionalText(row.location),
     Count(row.following), Count(row.followers), Count(row.totalTweets),
     Count(row.retweetCount), Str(row.text), Tags(row.hashtags)]
  }

  /** The position of the first occurrence of `name` in `names`. */
  function IndexOf(names: seq<string>, name: string): (k: Option<nat>)
    ensures k.None? <==> name !in names
    ensures k.Some? ==> k.value < |names| && names[k.value] == name
    ensures k.Some? ==> forall j :: 0 <= j < k.value ==> names[j] != name
  {
    if names == [] then None
    else if names[0] == name then Some(0)
    else
      match IndexOf(names[1..], name)
      case None => None
      case Some(k) => Some(k + 1)
  }

  /** The cell a table pairs with header `name`: the table lines cells up with
      the header by position. */
  function CellAt(row: Row, name: string): (c: Option<Cell>)
    ensures c.Some? <==> name in Columns
  {
    match IndexOf(Columns, name)
    case None => None
    case Some(k) => Some(Fields(row)[k])
  }

  /** In a header without repeated names every name is found at its own position. */
  lemma IndexOfDistinct(names: seq<string>, k: nat)
    requires k < |names|
    requires forall i, j :: 0 <= i < j < |names| ==> names[i] != names[j]
    ensures IndexOf(names, names[k]) == Some(k)
  {
  }

  /** Each header name labels the field it names. */
  lemma ColumnsAligned(row: Row)
    ensures CellAt(row, "username") == Some(Str(row.username))
    ensures CellAt(row, "description") == Some(OptionalText(row.description))
    ensures CellAt(row, "location") == Some(OptionalText(row.location))
    ensures CellAt(row, "following") == Some(Count(row.following))
    ensures CellAt(row, "followers") == Some(Count(row.followers))
    ensures CellAt(row, "totaltweets") == Some(Count(row.totalTweets))
    ensures CellAt(row, "retweetcount") == Some(Count(row.retweetCount))
    ensures CellAt(row, "text") == Some(Str(row.text))
    ensures CellAt(row, "hashtags") == Some(Tags(row.hashtags))
  {
    CellAtPosition(row, 0);
    CellAtPosition(row, 1);
    CellAtPosition(row, 2);
    CellAtPosition(row, 3);
    CellAtPosition(row, 4);
    CellAtPosition(row, 5);
    CellAtPosition(row, 6);
    CellAtPosition(row, 7);
    CellAtPosition(row, 8);
  }

  /** The header name at position k labels the k-th cell. */
  lemma CellAtPosition(row: Row, k: nat)
    requires k < |Columns|
    ensures CellAt(row, Columns[k]) == Some(Fields(row)[k])
  {
    assert forall i, j :: 0 <= i < j < |Columns| ==> Columns[i] != Columns[j];
    IndexOfDistinct(Columns, k);
  }

  /** `tweepy.Cursor(...).items(limit)`: the search results, stopped after
      `limit` items or when the results run out. */
  function CursorItems(results: seq<Tweet>, limit: int): (items: seq<Tweet>)
    requires limit > 0
    ensures items <= results
    ensures |items| <= limit
    ensures |items| == limit || items == results
  {
    if |results| <= limit then results else results[..limit]
  }

  /** `[tweet_to_row(tweet) for tweet in cursor]`: one row per item in cursor
      order, or the exception of the first item that cannot be flattened. */
  function NormalizeAll(items: seq<Tweet>): (r: Result<seq<Row>, Error>)
    ensures r.Success? <==> forall i :: 0 <= i < |items| ==> TweetToRow(items[i]).Success?
    ensures r.Success? ==>
      |r.value| == |items| && forall i :: 0 <= i < |items| ==> Success(r.value[i]) == TweetToRow(items[i])
  {
    if items == [] then Success([])
    else
      match TweetToRow(items[0])
      case Failure(e) => Failure(e)
      case Success(row) =>
        match NormalizeAll(items[1..])
        case Failure(e) => Failure(e)
        case Success(rows) => Success([row] + rows)
  }

  /** A failed comprehension reports the exception of the first item, in
      cursor order, that cannot be flattened. */
  lemma {:induction false} NormalizeAllFailsAtFirst(items: seq<Tweet>, k: nat)
    requires k < |items| && !Normalizable(items[k])
    requires forall j :: 0 <= j < k ==> Normalizable(items[j])
    ensures NormalizeAll(items) == Failure(TweetToRow(items[k]).error)
  {
    if k > 0 {
      NormalizeAllFailsAtFirst(items[1..], k - 1);
    }
  }

  /** The comprehension over a concatenated stream: the rows of the whole
      stream are the rows of the first part followed by the rows of the
      second, so cutting the stream anywhere loses and repeats no row. */
  lemma NormalizeAllAppend(a: seq<Tweet>, b: seq<Tweet>)
    requires NormalizeAll(a).Success? && NormalizeAll(b).Success?
    ensures NormalizeAll(a + b) == Success(NormalizeAll(a).value + NormalizeAll(b).value)
  {
    var front, back := NormalizeAll(a).value, NormalizeAll(b).value;
    var rows := front + back;
    var ab := a + b;
    assert forall i :: 0 <= i < |ab| ==> Success(rows[i]) == TweetToRow(ab[i]) by {
      forall i | 0 <= i < |ab| ensures Success(rows[i]) == TweetToRow(ab[i]) {
        if i < |a| {
          assert ab[i] == a[i] && rows[i] == front[i];
        } else {
          assert ab[i] == b[i - |a|] && rows[i] == back[i - |a|];
        }
      }
    }
    assert NormalizeAll(ab).Success?;
    var whole := NormalizeAll(ab).value;
    assert |whole| == |rows|;
    forall i | 0 <= i < |rows| ensures whole[i] == rows[i] {
      assert Success(whole[i]) == TweetToRow(ab[i]) == Success(rows[i]);
    }
    assert whole == rows;
  }

  /** The data frame `scrape_tweets` returns: a header and rows in order. */
  datatype Table = Table(columns: seq<string>, rows: seq<Row>)

  /** `scrape_tweets` over the results the search yields for the query. */
  function ScrapeTweets(results: seq<Tweet>, limit: int): (r: Result<Table, Error>)
    requires limit > 0
    ensures r.Success? <==>
      forall i :: 0 <= i < |results| && i < limit ==> Normalizable(results[i])
    ensures r.Success? ==> r.value.columns == Columns
    ensures r.Success? ==>
      |r.value.rows| <= limit && (|r.value.rows| == limit || |r.value.rows| == |results|)
    ensures r.Success? ==>
      forall i :: 0 <= i < |r.value.rows| ==> i < |results| && IsRowOf(results[i], r.value.rows[i])
  {
    var rows :- NormalizeAll(CursorItems(results, limit));
    Success(Table(Columns, rows))
  }

  /** When a tweet within the first `limit` cannot be flattened, the scrape
      fails with the exception of the first such tweet and yields no table. */
  lemma ScrapeFailsAtFirst(results: seq<Tweet>, limit: int, k: nat)
    requires limit > 0 && k < |results| && k < limit
    requires !Normalizable(results[k])
    requires forall j :: 0 <= j < k ==> Normalizable(results[j])
    ensures ScrapeTweets(results, limit) == Failure(TweetToRow(results[k]).error)
  {
    var items := CursorItems(results, limit);
    assert items[k] == results[k];
    NormalizeAllFailsAtFirst(items, k);
  }

  /** Results beyond the first `limit` are never yielded and never affect the
      outcome: whatever follows them, even tweets that cannot be flattened,
      leaves the scrape unchanged. */
  lemma ScrapeIgnoresResultsBeyondLimit(results: seq<Tweet>, rest: seq<Tweet>, limit: int)
    requires limit > 0 && |results| >= limit
    ensures ScrapeTweets(results + rest, limit) == ScrapeTweets(results, limit)
  {
    assert CursorItems(results + rest, limit) == CursorItems(results, limit);
  }

  /** A search that yields only original tweets, each with non-empty text and
      `n` hashtags, gives one row per tweet up to `limit`, each with non-empty
      text and `n` tags. */
  lemma ScrapeOfOriginals(results: seq<Tweet>, limit: int, n: nat)
    requires limit > 0
    requires forall i :: 0 <= i < |results| ==>
      results[i].retweeted.None? && results[i].fullText.Some? && results[i].fullText.value != ""
    requires forall i :: 0 <= i < |results| ==>
      |HashtagEntities(results[i])| == n && HashtagsWellFormed(results[i])
    ensures ScrapeTweets(results, limit).Success?
    ensures |ScrapeTweets(results, limit).value.rows| == if |results| < limit then |results| else limit
    ensures forall row :: row in ScrapeTweets(results, limit).value.rows ==>
      row.text != "" && |row.hashtags| == n
  {
  }
}
