/** The values the collector works on: a tweet as the search API returns it,
    the nine-field row it is flattened into, and the errors raised on the way. */
module Records {
  import opened Wrappers

  /** One entry of `entities["hashtags"]`: a dictionary that normally holds a
      "text" key (other keys, such as "indices", are irrelevant here). */
  type Hashtag = map<string, string>

  /** The author profile of a tweet. Description and location may be null. */
  datatype User = User(
    screenName: string,
    description: Option<string>,
    location: Option<string>,
    friendsCount: int,
    followersCount: int,
    statusesCount: int)

  /** The `retweeted_status` of a retweet; its `full_text` attribute may be absent. */
  datatype Original = Original(fullText: Option<string>)

  /** A status returned by the search in extended mode. `retweeted` is None
      when the tweet has no `retweeted_status` attribute; `fullText` is None
      when the tweet itself has no `full_text` attribute. */
  datatype Tweet = Tweet(
    user: User,
    retweetCount: int,
    fullText: Option<string>,
    retweeted: Option<Original>,
    entities: map<string, seq<Hashtag>>)

  /** One output row, in column order. */
  datatype Row = Row(
    username: string,
    description: Option<string>,
    location: Option<string>,
    following: int,
    followers: int,
    totalTweets: int,
    retweetCount: int,
    text: string,
    hashtags: seq<string>)

  /** The value stored in one cell of the table. */
  datatype Cell = Str(s: string) | Null | Count(n: int) | Tags(tags: seq<string>)

  /** The exceptions the core raises: RuntimeError for incomplete credentials,
      AttributeError for an absent attribute, KeyError for an absent key. */
  datatype Error = MissingCredentials | MissingAttribute(name: string) | MissingKey(key: string)
}
