/**
 * Activities as the feed store hands them out, the bounded page that every
 * read of a feed returns, the first-match lookup by foreign id, and removal
 * by foreign id.
 */
module Activities {

  datatype Option<+T> = None | Some(value: T)

  type UserId = string
  type ForeignId = string
  type Genre = string

  /** The most activities one feed read returns (the handlers ask for 100). */
  const PageLimit: nat := 100

  /**
   * One feed entry. `genre` is absent on activities that were posted
   * without one; `relevance` is only present once an activity was scored;
   * `to` lists the extra feeds an activity is addressed to.
   */
  datatype Activity = Activity(
    actor: string,
    verb: string,
    obj: string,          // the `object` field: a reference to the content
    foreignId: ForeignId,
    genre: Option<Genre>,
    popularity: int,
    time: string,
    relevance: Option<real>,
    to: seq<string>)

  /** A genre is usable when it is present and not the empty string. */
  predicate HasGenre(a: Activity)
    ensures HasGenre(a) ==> a.genre.Some?
    ensures a.genre == Some("") ==> !HasGenre(a)
    ensures a.genre.Some? && a.genre.value != "" ==> HasGenre(a)
  {
    a.genre.Some? && a.genre.value != ""
  }

  /** The page a read with the given limit returns: the first `limit` entries. */
  function Page(feed: seq<Activity>, limit: nat): (r: seq<Activity>)
    ensures |r| <= limit && |r| <= |feed|
    ensures r == feed[..|r|]
    ensures |feed| <= limit ==> r == feed
    ensures limit <= |feed| ==> |r| == limit
  {
    if |feed| <= limit then feed else feed[..limit]
  }

  /** There is only one first match. */
  lemma FirstMatchUnique(page: seq<Activity>, fid: ForeignId, i: int, k: int)
    requires FirstMatchAt(page, fid, i) && FirstMatchAt(page, fid, k)
    ensures i == k
  {
  }

  /** `i` is the position of the first activity of `page` whose foreign id is `fid`. */
  ghost predicate FirstMatchAt(page: seq<Activity>, fid: ForeignId, i: int) {
    && 0 <= i < |page|
    && page[i].foreignId == fid
    && forall j :: 0 <= j < i ==> page[j].foreignId != fid
  }

  /** Position of the first activity with foreign id `fid`, searching from the front. */
  function FindIndex(page: seq<Activity>, fid: ForeignId): (r: Option<nat>)
    ensures r.Some? ==> FirstMatchAt(page, fid, r.value)
    ensures r.None? <==> forall j :: 0 <= j < |page| ==> page[j].foreignId != fid
  {
    if page == [] then None
    else if page[0].foreignId == fid then Some(0)
    else match FindIndex(page[1..], fid)
      case None => None
      case Some(i) =>
        assert page[i + 1] == page[1..][i];
        Some(i + 1)
  }

  /** The set of foreign ids of a sequence of activities. */
  function IdSet(s: seq<Activity>): (ids: set<ForeignId>)
    ensures forall a :: a in s ==> a.foreignId in ids
    ensures forall id :: id in ids ==> exists a :: a in s && a.foreignId == id
  {
    set a | a in s :: a.foreignId
  }

  /** The ids of a longer prefix are the shorter prefix's ids and the next entry's id. */
  lemma IdSetPrefix(s: seq<Activity>, i: nat)
    requires i < |s|
    ensures IdSet(s[..i + 1]) == IdSet(s[..i]) + {s[i].foreignId}
  {
    assert s[..i + 1] == s[..i] + [s[i]];
    assert forall x :: x in s[..i + 1] <==> x in s[..i] || x == s[i];
  }

  /** `feed` without every entry whose foreign id is in `ids`, order kept. */
  function Without(feed: seq<Activity>, ids: set<ForeignId>): (r: seq<Activity>)
    ensures |r| <= |feed|
    ensures forall a :: a in r <==> a in feed && a.foreignId !in ids
  {
    if feed == [] then []
    else if feed[0].foreignId in ids then Without(feed[1..], ids)
    else [feed[0]] + Without(feed[1..], ids)
  }

  /** Removal keeps order: removing from a concatenation concatenates what is left of each part. */
  lemma {:induction false} WithoutAppend(s: seq<Activity>, t: seq<Activity>, ids: set<ForeignId>)
    ensures Without(s + t, ids) == Without(s, ids) + Without(t, ids)
  {
    if s == [] {
      assert s + t == t;
    } else {
      assert (s + t)[0] == s[0];
      assert (s + t)[1..] == s[1..] + t;
      WithoutAppend(s[1..], t, ids);
    }
  }

  /** Removing no ids leaves a feed as it is. */
  lemma {:induction false} WithoutNothing(feed: seq<Activity>)
    ensures Without(feed, {}) == feed
  {
    if feed != [] {
      WithoutNothing(feed[1..]);
      assert feed == [feed[0]] + feed[1..];
    }
  }

  /** Removing one id after a set of ids is removing their union. */
  lemma {:induction false} WithoutTwice(feed: seq<Activity>, ids: set<ForeignId>, fid: ForeignId)
    ensures Without(Without(feed, ids), {fid}) == Without(feed, ids + {fid})
  {
    if feed != [] {
      WithoutTwice(feed[1..], ids, fid);
    }
  }

  /** Removing every id of a whole feed empties it. */
  lemma {:induction false} WithoutOwnIds(feed: seq<Activity>, ids: set<ForeignId>)
    requires IdSet(feed) <= ids
    ensures Without(feed, ids) == []
  {
    if feed != [] {
      assert feed[0] in feed;
      assert IdSet(feed[1..]) <= IdSet(feed) by {
        forall a | a in feed[1..] ensures a in feed { }
      }
      WithoutOwnIds(feed[1..], ids);
    }
  }
}
