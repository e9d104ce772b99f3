/** The tweet controller: content validation, create, list by owner, update and delete. */
module Tweets {
  import opened Common
  import opened Text
  import opened Queries
  import opened Edges
  import opened Models
  import opened Database

  /** The soft limit on a tweet's untrimmed length, in UTF-16 code units. */
  const MaxTweetLength := 280

  const TooLongMessage := "Tweet cannot exceed 280 characters"

  datatype Verdict = Accepted(content: string) | Rejected(message: string)

  /** The content rules shared by create and update: missing, empty or whitespace-only
      content is refused with the handler's own message; then content longer than 280
      code units BEFORE trimming is refused; otherwise the trimmed content is kept. */
  function CheckContent(content: Option<string>, missingMessage: string): (v: Verdict)
    ensures v.Accepted? <==>
      Truthy(content) && !Blank(content.value) && Utf16Length(content.value) <= MaxTweetLength
    ensures (!Truthy(content) || Blank(content.value)) ==> v == Rejected(missingMessage)
    ensures Truthy(content) && !Blank(content.value) && Utf16Length(content.value) > MaxTweetLength ==>
      v == Rejected(TooLongMessage)
    ensures v.Accepted? ==>
      && v.content == Trim(content.value)
      && v.content != []
      && Utf16Length(v.content) <= MaxTweetLength
      && !IsJsSpace(v.content[0]) && !IsJsSpace(v.content[|v.content| - 1])
  {
    if !Truthy(content) || Trim(content.value) == "" then Rejected(missingMessage)
    else if Utf16Length(content.value) > MaxTweetLength then Rejected(TooLongMessage)
    else
      TrimShortens(content.value);
      Accepted(Trim(content.value))
  }

  /** The length limit looks at the untrimmed content: one letter followed by 280 spaces is
      refused, although what would be stored is the single letter. */
  lemma LimitCountsPadding()
    ensures var s := ['a'] + seq(280, _ => ' ');
      && Trim(s) == "a"
      && CheckContent(Some(s), "Tweet content is required") == Rejected(TooLongMessage)
  {
    var s := ['a'] + seq(280, _ => ' ');
    Utf16LengthOfBmp(s);
    assert !IsJsSpace(s[0]);
    var r := Trim(s);
    assert !Blank(s);
    assert LeadingSpaces(s) == 0;
    assert r[|r| - 1] == s[|r| - 1];
    assert |r| == 1;
    assert r == "a";
  }

  /** `createTweet`: on accepted content, a new tweet with the trimmed content and the
      caller as owner; on refused content, 400 and no change. */
  method CreateTweet(db: Store, owner: Id, content: Option<string>, now: nat) returns (r: Response<Tweet>)
    requires db.Valid()
    modifies db`tweets, db`nextId
    ensures db.Valid()
    ensures match CheckContent(content, "Tweet content is required")
      case Rejected(msg) =>
        r == Err(StatusBadRequest, msg) && db.tweets == old(db.tweets) && db.nextId == old(db.nextId)
      case Accepted(c) =>
        var t := Tweet(old(db.nextId), c, owner, now);
        && r == Ok(StatusCreated, t, "Tweet created successfully")
        && db.tweets == old(db.tweets) + [t]
        && db.nextId == old(db.nextId) + 1
        && forall u :: u in old(db.tweets) ==> u.id != t.id
  {
    var verdict := CheckContent(content, "Tweet content is required");
    if verdict.Rejected? {
      return Err(StatusBadRequest, verdict.message);
    }
    var t := Tweet(db.nextId, verdict.content, owner, now);
    db.tweets := db.tweets + [t];
    db.nextId := db.nextId + 1;
    r := Ok(StatusCreated, t, "Tweet created successfully");
  }

  /** `Tweet.find({ owner: user }).sort({ createdAt: -1 })`. */
  function OwnedTweets(tweets: seq<Tweet>, user: Id): (r: seq<Tweet>)
    ensures forall t :: multiset(r)[t] == if t.owner == user then multiset(tweets)[t] else 0
    ensures forall t :: t in r <==> t in tweets && t.owner == user
    ensures forall i, j :: 0 <= i < j < |r| ==> r[i].createdAt >= r[j].createdAt
  {
    var q := Query(tweets, (t: Tweet) => t.owner == user, (t: Tweet) => t.createdAt);
    assert NewestFirst(q, (t: Tweet) => t.createdAt);
    q
  }

  /** A tweet with its `owner` populated. */
  datatype TweetView = TweetView(tweet: Tweet, owner: User)

  /** The tweets with `owner` populated by `u`, in the same order. */
  function WithOwner(ts: seq<Tweet>, u: User): (r: seq<TweetView>)
    ensures |r| == |ts|
    ensures forall i :: 0 <= i < |ts| ==> r[i] == TweetView(ts[i], u)
  {
    seq(|ts|, i requires 0 <= i < |ts| => TweetView(ts[i], u))
  }

  /** `getUserTweets`: 400 on a malformed id, 404 when no user has it, otherwise the
      user's tweets in the order of `OwnedTweets`, each with the user as owner. */
  function GetUserTweets(valid: Id -> bool, users: seq<User>, tweets: seq<Tweet>, userId: Id)
    : (r: Response<seq<TweetView>>)
    ensures !valid(userId) ==> r == Err(StatusBadRequest, "Invalid user ID")
    ensures valid(userId) && FindUser(users, userId).None? ==> r == Err(StatusNotFound, "User not found")
    ensures r.Ok? <==> valid(userId) && FindUser(users, userId).Some?
    ensures r.Ok? ==>
      && r.status == StatusOk
      && r.data == WithOwner(OwnedTweets(tweets, userId), FindUser(users, userId).value)
  {
    if !valid(userId) then Err(StatusBadRequest, "Invalid user ID")
    else match FindUser(users, userId)
      case None => Err(StatusNotFound, "User not found")
      case Some(u) =>
        Ok(StatusOk, WithOwner(OwnedTweets(tweets, userId), u), "User tweets fetched successfully")
  }

  /** The listing holds exactly the user's tweets, newest first, each owned by that user. */
  lemma UserTweetsAreTheirs(valid: Id -> bool, users: seq<User>, tweets: seq<Tweet>, userId: Id)
    requires valid(userId) && FindUser(users, userId).Some?
    ensures var data := GetUserTweets(valid, users, tweets, userId).data;
      && (forall i :: 0 <= i < |data| ==>
            data[i].tweet in tweets && data[i].tweet.owner == userId &&
            data[i].owner in users && data[i].owner.id == userId)
      && (forall i, j :: 0 <= i < j < |data| ==> data[i].tweet.createdAt >= data[j].tweet.createdAt)
      && (forall t :: t in tweets && t.owner == userId ==>
            exists i :: 0 <= i < |data| && data[i].tweet == t)
  {
    var data := GetUserTweets(valid, users, tweets, userId).data;
    var ts := OwnedTweets(tweets, userId);
    var u := FindUser(users, userId).value;
    OwnedTweetsListed(tweets, userId);
    assert data == WithOwner(ts, u);
    forall i | 0 <= i < |data|
      ensures data[i].tweet == ts[i] && data[i].owner == u
    {
    }
  }

  /** Each of the user's tweets has a position in `OwnedTweets`. */
  lemma OwnedTweetsListed(tweets: seq<Tweet>, userId: Id)
    ensures var ts := OwnedTweets(tweets, userId);
      && (forall i :: 0 <= i < |ts| ==> ts[i] in tweets && ts[i].owner == userId)
      && (forall t :: t in tweets && t.owner == userId ==> exists i :: 0 <= i < |ts| && ts[i] == t)
  {
    var ts := OwnedTweets(tweets, userId);
    forall i | 0 <= i < |ts| ensures ts[i] in tweets && ts[i].owner == userId {
      assert ts[i] in ts;
    }
  }

  /** `updateTweet`. Guards in order: malformed id (400), refused content (400), no such
      tweet (404), not the owner (403). Otherwise only the content changes, to the trimmed
      input; every error leaves the tweets as they were. */
  method UpdateTweet(db: Store, user: Id, tweetId: Id, content: Option<string>) returns (r: Response<Tweet>)
    requires db.Valid()
    modifies db`tweets
    ensures db.Valid()
    ensures r.Err? ==> db.tweets == old(db.tweets)
    ensures !db.validId(tweetId) ==> r == Err(StatusBadRequest, "Invalid tweet ID")
    ensures db.validId(tweetId) ==>
      match CheckContent(content, "Updated content is required")
      case Rejected(msg) => r == Err(StatusBadRequest, msg)
      case Accepted(c) =>
        match FindTweet(old(db.tweets), tweetId)
        case None => r == Err(StatusNotFound, "Tweet not found")
        case Some(i) =>
          var t := old(db.tweets)[i];
          if t.owner != user then r == Err(StatusForbidden, "You are not allowed to update this tweet")
          else
            var t' := t.(content := c);
            && r == Ok(StatusOk, t', "Tweet updated successfully")
            && db.tweets == old(db.tweets)[i := t']
            && t'.id == t.id && t'.owner == t.owner && t'.createdAt == t.createdAt
  {
    if !db.validId(tweetId) {
      return Err(StatusBadRequest, "Invalid tweet ID");
    }
    var verdict := CheckContent(content, "Updated content is required");
    if verdict.Rejected? {
      return Err(StatusBadRequest, verdict.message);
    }
    var found := FindTweet(db.tweets, tweetId);
    if found.None? {
      return Err(StatusNotFound, "Tweet not found");
    }
    var i := found.value;
    var t := db.tweets[i];
    if t.owner != user {
      return Err(StatusForbidden, "You are not allowed to update this tweet");
    }
    var t' := t.(content := verdict.content);
    db.tweets := db.tweets[i := t'];
    r := Ok(StatusOk, t', "Tweet updated successfully");
  }

  /** `deleteTweet`. Guards in order: malformed id (400), no such tweet (404), not the
      owner (403). Otherwise the tweet is removed and no tweet has its id. */
  method DeleteTweet(db: Store, user: Id, tweetId: Id) returns (r: Response<()>)
    requires db.Valid()
    modifies db`tweets
    ensures db.Valid()
    ensures r.Err? ==> db.tweets == old(db.tweets)
    ensures !db.validId(tweetId) ==> r == Err(StatusBadRequest, "Invalid tweet ID")
    ensures db.validId(tweetId) ==>
      match FindTweet(old(db.tweets), tweetId)
      case None => r == Err(StatusNotFound, "Tweet not found")
      case Some(i) =>
        if old(db.tweets)[i].owner != user then r == Err(StatusForbidden, "You are not allowed to delete this tweet")
        else
          && r == Ok(StatusOk, (), "Tweet deleted successfully")
          && db.tweets == RemoveAt(old(db.tweets), i)
          && forall t :: t in db.tweets ==> t.id != tweetId
  {
    if !db.validId(tweetId) {
      return Err(StatusBadRequest, "Invalid tweet ID");
    }
    var found := FindTweet(db.tweets, tweetId);
    if found.None? {
      return Err(StatusNotFound, "Tweet not found");
    }
    var i := found.value;
    if db.tweets[i].owner != user {
      return Err(StatusForbidden, "You are not allowed to delete this tweet");
    }
    ghost var before := db.tweets;
    db.tweets := RemoveAt(db.tweets, i);
    forall t | t in db.tweets ensures t.id != tweetId {
      var k :| 0 <= k < |db.tweets| && db.tweets[k] == t;
      if k < i {
        assert before[k].id != before[i].id;
      } else {
        assert before[k + 1].id != before[i].id;
      }
    }
    r := Ok(StatusOk, (), "Tweet deleted successfully");
  }
}
