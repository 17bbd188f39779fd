/** `tweet_to_row`: one tweet flattened into the nine fields of a row. */
module Normalizer {
  import opened Wrappers
  import opened Records

  /** `tweet.entities.get("hashtags", [])`. */
  function HashtagEntities(t: Tweet): (hs: seq<Hashtag>)
    ensures "hashtags" in t.entities ==> hs == t.entities["hashtags"]
    ensures "hashtags" !in t.entities ==> hs == []
  {
    if "hashtags" in t.entities then t.entities["hashtags"] else []
  }

  /** The list comprehension `[h["text"] for h in hashtags]`: it raises a
      KeyError at the first entity without a "text" key. */
  function HashtagTexts(hs: seq<Hashtag>): (r: Result<seq<string>, Error>)
    ensures r.Success? <==> forall i :: 0 <= i < |hs| ==> "text" in hs[i]
    ensures r.Success? ==>
      |r.value| == |hs| && forall i :: 0 <= i < |hs| ==> "text" in hs[i] && r.value[i] == hs[i]["text"]
    ensures r.Failure? ==> r.error == MissingKey("text")
  {
    if hs == [] then Success([])
    else if "text" !in hs[0] then Failure(MissingKey("text"))
    else
      match HashtagTexts(hs[1..])
      case Failure(e) => Failure(e)
      case Success(rest) => Success([hs[0]["text"]] + rest)
  }

  /** The text of the original tweet is available: the tweet has a
      `retweeted_status` and that status has a `full_text`. */
  predicate HasOriginalText(t: Tweet) {
    t.retweeted.Some? && t.retweeted.value.fullText.Some?
  }

  /** The try/except around `tweet.retweeted_status.full_text`: either missing
      attribute falls back to the tweet's own `full_text`, whose absence is not
      caught. */
  function ResolveText(t: Tweet): (r: Result<string, Error>)
    ensures HasOriginalText(t) ==> r == Success(t.retweeted.value.fullText.value)
    ensures !HasOriginalText(t) && t.fullText.Some? ==> r == Success(t.fullText.value)
    ensures !HasOriginalText(t) && t.fullText.None? ==> r == Failure(MissingAttribute("full_text"))
  {
    match t.retweeted
    case Some(Original(Some(original))) => Success(original)
    case _ =>
      match t.fullText
      case Some(own) => Success(own)
      case None => Failure(MissingAttribute("full_text"))
  }

  /** Every hashtag entity carries a "text" key. */
  predicate HashtagsWellFormed(t: Tweet) {
    forall h :: h in HashtagEntities(t) ==> "text" in h
  }

  /** A tweet `tweet_to_row` can flatten without raising. */
  predicate Normalizable(t: Tweet) {
    HashtagsWellFormed(t) && (HasOriginalText(t) || t.fullText.Some?)
  }

  /** Relational statement of what a row of `t` is: the profile fields and
      counters copied verbatim, the original's text for a retweet whose
      original has text and the tweet's own text otherwise, and the "text"
      of every hashtag entity in order. */
  predicate IsRowOf(t: Tweet, row: Row) {
    && row.username == t.user.screenName
    && row.description == t.user.description
    && row.location == t.user.location
    && row.following == t.user.friendsCount
    && row.followers == t.user.followersCount
    && row.totalTweets == t.user.statusesCount
    && row.retweetCount == t.retweetCount
    && (HasOriginalText(t) ==> row.text == t.retweeted.value.fullText.value)
    && (!HasOriginalText(t) ==> Some(row.text) == t.fullText)
    && |row.hashtags| == |HashtagEntities(t)|
    && forall i :: 0 <= i < |row.hashtags| ==>
         "text" in HashtagEntities(t)[i] && row.hashtags[i] == HashtagEntities(t)[i]["text"]
  }

  /** `tweet_to_row`. The hashtags are extracted before the text is resolved,
      so a hashtag without "text" is reported even when the text is missing too. */
  function TweetToRow(t: Tweet): (r: Result<Row, Error>)
    ensures r.Success? <==> Normalizable(t)
    ensures r.Success? ==> IsRowOf(t, r.value)
    ensures r.Failure? && !HashtagsWellFormed(t) ==> r.error == MissingKey("text")
    ensures r.Failure? && HashtagsWellFormed(t) ==> r.error == MissingAttribute("full_text")
  {
    var hashtags :- HashtagTexts(HashtagEntities(t));
    var text :- ResolveText(t);
    Success(Row(
      t.user.screenName,
      t.user.description,
      t.user.location,
      t.user.friendsCount,
      t.user.followersCount,
      t.user.statusesCount,
      t.retweetCount,
      text,
      hashtags))
  }

  /** The relational statement pins the row down: a tweet has at most one row,
      so normalisation is deterministic whatever way it is computed. */
  lemma RowIsUnique(t: Tweet, row1: Row, row2: Row)
    requires IsRowOf(t, row1) && IsRowOf(t, row2)
    ensures row1 == row2
  {
  }
}
