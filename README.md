# Twitter COVID data collection — a Dafny model

This project models the collection stage of the Twitter COVID-19 scraper
(`covid_tweets.py`). That stage has three parts:

- **Credential check.** `create_api` reads `TWITTER_CONSUMER_KEY`,
  `TWITTER_CONSUMER_SECRET`, `TWITTER_ACCESS_TOKEN` and
  `TWITTER_ACCESS_TOKEN_SECRET` from the environment. It raises a
  `RuntimeError` unless all four are set and non-empty, which is Python's
  `all([...])` over values that may be `None`.
- **Tweet normalisation.** `tweet_to_row` flattens one status into a nine-field
  row. The row holds the author's screen name, description and location, the
  author's three counters, the tweet's retweet count, the text and the hashtag
  texts. For the text it takes the `full_text` of the `retweeted_status` when
  that exists. When either attribute is missing it falls back to the tweet's
  own `full_text`, and that fallback is not guarded.
- **Scraping.** `scrape_tweets` asks the search cursor for at most `limit`
  statuses. It flattens each one in cursor order and labels the nine fields
  with a fixed header.

The code is pure, so the model is built from datatypes, functions and lemmas.
Python's exceptions become a `Result`. `RuntimeError` is `MissingCredentials`.
The `AttributeError` of an absent `full_text` is `MissingAttribute("full_text")`.
The `KeyError` of a hashtag entity without `"text"` is `MissingKey("text")`.

Files:
- `wrappers.dfy`: Option and Result.
- `records.dfy`: the tweet, user, row, cell and error types.
- `credentials.dfy`: the credential check.
- `normalizer.dfy`: `tweet_to_row`.
- `collector.dfy`: the cursor cap, the comprehension over the cursor, and the table.

In these cases the model follows the code literally:
- The header is the code's `username, description, location, following,
  followers, totaltweets, retweetcount, text, hashtags`. It is not a list of
  the tweet's attribute names.
- A tweet that has neither text raises `AttributeError`. No dedicated
  malformed-record error exists.
- A hashtag entity without `"text"` raises `KeyError`. Hashtags are extracted before the text is resolved,
  so this error takes precedence.
- A failure in any tweet aborts the whole scrape, because the list
  comprehension propagates the exception. No tweet is skipped.

## Model

| member | source | states |
|---|---|---|
| `Credentials.Getenv` | covid_tweets.py:29-32 | `os.getenv` gives a value exactly when the variable is set, and then the variable's value |
| `Credentials.All` | covid_tweets.py:34 | `all(values)` holds exactly when every value is neither None nor the empty string |
| `Credentials.CheckCredentials` | covid_tweets.py:34-37 | succeeds iff all four values are present and non-empty, then passes them on unchanged; otherwise fails with MissingCredentials |
| `Credentials.ResolveCredentials` | covid_tweets.py:29-37 | succeeds iff each of the four named variables is set to a non-empty string, with exactly those four values; otherwise MissingCredentials |
| `Credentials.ResolveReadsOnlyFourVariables` | covid_tweets.py:29-32 | environments that agree on the four variable names give the same outcome |
| `Normalizer.HashtagEntities` | covid_tweets.py:46 | `entities.get("hashtags", [])`: the "hashtags" entry when the key is present, and the empty list otherwise |
| `Normalizer.HashtagTexts` | covid_tweets.py:46 | succeeds iff every entity has a "text" key; then the result has the same length and holds each entity's "text" in order (empty for no entities); otherwise KeyError "text" |
| `Normalizer.ResolveText` | covid_tweets.py:47-50 | the original's full_text when the tweet has a retweeted_status with full_text; otherwise the tweet's own full_text; AttributeError "full_text" when that is absent too |
| `Normalizer.TweetToRow` | covid_tweets.py:44-62 | succeeds iff all hashtag entities have "text" and some text is available; the row copies profile fields and counters verbatim, takes the original's text for a retweet whose original has full_text and the tweet's own text otherwise, and lists the hashtag texts in order; a missing hashtag "text" is reported before a missing full_text |
| `Normalizer.RowIsUnique` | covid_tweets.py:44-62 | the row relation pins the row down: a tweet has at most one row, so normalisation is deterministic |
| `Collector.Fields` | covid_tweets.py:52-62 | every row has exactly as many cells as the header has names, nine |
| `Collector.CellAt` | covid_tweets.py:92 | a row has a cell under a name exactly when the name is in the header |
| `Collector.ColumnsAligned` | covid_tweets.py:76-86 | each of the nine header names labels the row field of that name (username is the screen name, text the resolved text, hashtags the tag list, and so on) |
| `Collector.CursorItems` | covid_tweets.py:87-89 | the cursor yields a prefix of the search results, at most `limit` long, stopping early only when the results run out |
| `Collector.NormalizeAll` | covid_tweets.py:91 | succeeds iff every item can be flattened; then exactly one row per item, row i being the row of item i |
| `Collector.NormalizeAllFailsAtFirst` | covid_tweets.py:91 | a failing comprehension reports the exception of the first item, in cursor order, that cannot be flattened |
| `Collector.NormalizeAllAppend` | covid_tweets.py:87-91 | the comprehension over a concatenated stream gives the rows of the first part followed by those of the second, so cutting the stream anywhere loses and repeats no row (that tweepy's pages concatenate to the search results is assumed, see Left out) |
| `Collector.ScrapeTweets` | covid_tweets.py:65-92 | succeeds iff each of the first `limit` results can be flattened; the table has the nine-name header, at most `limit` rows (exactly `limit` unless the results run out), and row i is a row of result i |
| `Collector.ScrapeFailsAtFirst` | covid_tweets.py:87-92 | when one of the first `limit` results cannot be flattened, the scrape fails with the exception of the first such result |
| `Collector.ScrapeIgnoresResultsBeyondLimit` | covid_tweets.py:87-89 | results after the first `limit` are never yielded and never affect the outcome, even tweets that cannot be flattened |
| `Collector.ScrapeOfOriginals` | covid_tweets.py:76-92 | a search of original tweets with non-empty text and n well-formed hashtags each gives min(results, limit) rows, each with non-empty text and n tags |

## Left out

- OAuth: the handler, access-token setup and `tweepy.API` construction (covid_tweets.py:39-41). These are network-client internals. The model stops at the credentials that would be handed over.
- Search and paging: `api.search`, the `lang="en"` and `tweet_mode="extended"` parameters, and the wait on rate limits (covid_tweets.py:87-89). All of this happens inside tweepy. The model takes the statuses the search yields for the query, in ranking order, as an input sequence. That the pages concatenate to this sequence across rate-limit waits, with nothing lost or repeated, is assumed rather than proved.
- Source errors: network or authentication failures raised while the cursor is iterated. These come from tweepy and are not modelled.
- Collector.ScrapeTweets: requires `limit > 0`. How `Cursor.items` treats a zero or negative limit is decided inside tweepy.
- Attribute types: the model assumes `tweet.user`, its fields, `retweet_count` and `tweet.entities` are always present, and that every hashtag value is a string. The search API always supplies these attributes. Dynamic type errors are not modelled.
- Other dictionary keys: only the `"text"` key of each hashtag entity is modelled. Other keys, such as `"indices"`, are not.
- `pd.DataFrame` and `save_to_csv` (covid_tweets.py:92, 95-97): these are pandas and file I/O. The table is modelled as a header plus a row sequence. The CSV spelling of the hashtag list is not modelled.
- `main` (covid_tweets.py:100-127): this is argument parsing, printing and wiring.
- transformer_sentiment.py: this is the sentiment stage. It consists of a call into a transformers model with floating-point scores and pandas CSV input and output.
- Determinism and absence of side effects: `tweet_to_row` is a Dafny function over immutable values, so the model gets both by construction. `Normalizer.RowIsUnique` adds that the row relation allows only one row.
