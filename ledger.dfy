/**
 * The engagement ledger: per user, how many liked activities of each genre
 * that user has recorded, and the rule that turns one "like" of an activity
 * into one increment.
 *
 * A profile keeps its genres in the order they were first liked, the way the
 * keys of a JavaScript object keep insertion order; that order decides how
 * ties are ranked (see Preferences).
 */
module Ledger {
  import opened Activities

  datatype Entry = Entry(genre: Genre, likes: nat)

  /** A user's `liked_genres`, in insertion order. */
  type Profile = seq<Entry>

  /** The whole ledger: user id to that user's profile. */
  type Engagements = map<UserId, Profile>

  /** The genres of a profile, in insertion order. */
  function Genres(p: Profile): (gs: seq<Genre>)
    ensures |gs| == |p|
    ensures forall i :: 0 <= i < |p| ==> gs[i] == p[i].genre
  {
    if p == [] then [] else [p[0].genre] + Genres(p[1..])
  }

  /** No genre occurs twice, as the keys of an object cannot. */
  ghost predicate DistinctGenres(p: Profile) {
    forall i, j :: 0 <= i < j < |p| ==> p[i].genre != p[j].genre
  }

  /** The like count of `g` in `p`; a genre that is not there counts 0. */
  function Count(p: Profile, g: Genre): (n: nat)
    ensures g !in Genres(p) ==> n == 0
  {
    if p == [] then 0
    else if p[0].genre == g then p[0].likes
    else Count(p[1..], g)
  }

  /** A genre that is there counts the likes stored in its first entry. */
  lemma {:induction false} CountFirstEntry(p: Profile, g: Genre, i: nat)
    requires i < |p| && p[i].genre == g
    requires forall j :: 0 <= j < i ==> p[j].genre != g
    ensures Count(p, g) == p[i].likes
  {
    if i > 0 {
      assert p[1..][i - 1] == p[i];
      assert forall j :: 0 <= j < i - 1 ==> p[1..][j] == p[j + 1];
      CountFirstEntry(p[1..], g, i - 1);
    }
  }

  /**
   * One more like of `g`, counting from 0 when `g` is new: an existing entry
   * is updated where it stands, a new genre is added at the end with count 1.
   */
  function Increment(p: Profile, g: Genre): (r: Profile)
    ensures Count(r, g) == Count(p, g) + 1
    ensures forall h :: h != g ==> Count(r, h) == Count(p, h)
  {
    if p == [] then [Entry(g, 1)]
    else if p[0].genre == g then
      var r := [Entry(g, p[0].likes + 1)] + p[1..];
      assert r[1..] == p[1..];
      r
    else
      var rest := Increment(p[1..], g);
      var r := [p[0]] + rest;
      assert r[1..] == rest;
      r
  }

  /** An existing genre keeps its place; a new genre is added at the end. */
  lemma {:induction false} IncrementGenres(p: Profile, g: Genre)
    ensures Genres(Increment(p, g)) == if g in Genres(p) then Genres(p) else Genres(p) + [g]
  {
    if p != [] {
      var r := Increment(p, g);
      assert Genres(p) == [p[0].genre] + Genres(p[1..]);
      assert Genres(r) == [r[0].genre] + Genres(r[1..]);
      if p[0].genre == g {
        assert r[1..] == p[1..];
      } else {
        IncrementGenres(p[1..], g);
        assert r[1..] == Increment(p[1..], g);
      }
    }
  }

  /** Incrementing never introduces a second entry for a genre. */
  lemma IncrementKeepsDistinct(p: Profile, g: Genre)
    requires DistinctGenres(p)
    ensures DistinctGenres(Increment(p, g))
  {
    IncrementGenres(p, g);
    var r := Increment(p, g);
    forall i, j | 0 <= i < j < |r| ensures r[i].genre != r[j].genre {
      assert r[i].genre == Genres(r)[i] && r[j].genre == Genres(r)[j];
      if g !in Genres(p) && j == |p| {
        assert Genres(p)[i] in Genres(p);
      } else {
        assert Genres(p)[i] == p[i].genre && Genres(p)[j] == p[j].genre;
      }
    }
  }

  /** The profile of `u`; a user with no entry yet has the empty profile. */
  function ProfileOf(e: Engagements, u: UserId): (p: Profile)
    ensures u in e ==> p == e[u]
    ensures u !in e ==> p == [] && forall g :: Count(p, g) == 0
  {
    if u in e then e[u] else []
  }

  /** How many likes of genre `g` the ledger holds for user `u`. */
  function Likes(e: Engagements, u: UserId, g: Genre): nat {
    Count(ProfileOf(e, u), g)
  }

  /** One like by `u` of genre `g`, applied to the whole ledger. */
  function Like(e: Engagements, u: UserId, g: Genre): (r: Engagements)
    ensures r.Keys == e.Keys + {u}
    ensures Likes(r, u, g) == Likes(e, u, g) + 1
    ensures forall v, h :: (v != u || h != g) ==> Likes(r, v, h) == Likes(e, v, h)
    ensures forall v :: v in e && v != u ==> r[v] == e[v]
  {
    e[u := Increment(ProfileOf(e, u), g)]
  }

  /** What a like request ends in: the ledger to save, or the thrown error. */
  datatype LikeOutcome = Ok(ledger: Engagements) | GenreNotFound

  /**
   * The `/engage/:userId` decision: find the first activity of the page with
   * foreign id `fid`; fail unless it exists and has a genre; otherwise the
   * ledger with that genre's count for `u` raised by one.
   */
  function RecordLike(e: Engagements, u: UserId, page: seq<Activity>, fid: ForeignId): (r: LikeOutcome)
    ensures r.Ok? <==> exists i :: FirstMatchAt(page, fid, i) && HasGenre(page[i])
    ensures forall i :: FirstMatchAt(page, fid, i) && HasGenre(page[i]) ==> r == Ok(Like(e, u, page[i].genre.value))
    ensures (forall j :: 0 <= j < |page| ==> page[j].foreignId != fid) ==> r == GenreNotFound
  {
    match FindIndex(page, fid)
    case None => GenreNotFound
    case Some(i) =>
      if !HasGenre(page[i]) then GenreNotFound
      else
        assert forall k :: FirstMatchAt(page, fid, k) ==> k == i by {
          forall k | FirstMatchAt(page, fid, k) ensures k == i {
            FirstMatchUnique(page, fid, i, k);
          }
        }
        Ok(Like(e, u, page[i].genre.value))
  }

  /** Every profile of the ledger has distinct genres. */
  ghost predicate LedgerDistinct(e: Engagements) {
    forall v :: v in e ==> DistinctGenres(e[v])
  }

  /** A like keeps every profile free of repeated genres. */
  lemma LikeKeepsDistinct(e: Engagements, u: UserId, g: Genre)
    requires LedgerDistinct(e)
    ensures LedgerDistinct(Like(e, u, g))
  {
    IncrementKeepsDistinct(ProfileOf(e, u), g);
  }

  /** A run of successful likes by `u`, one per genre in `gs`, in order. */
  function LikeAll(e: Engagements, u: UserId, gs: seq<Genre>): Engagements
    decreases gs
  {
    if gs == [] then e else LikeAll(Like(e, u, gs[0]), u, gs[1..])
  }

  /** After a run of likes, each count is its old value plus its number of likes. */
  lemma {:induction false} LikeAllCounts(e: Engagements, u: UserId, gs: seq<Genre>, g: Genre)
    ensures Likes(LikeAll(e, u, gs), u, g) == Likes(e, u, g) + multiset(gs)[g]
    decreases gs
  {
    if gs != [] {
      assert gs == [gs[0]] + gs[1..];
      LikeAllCounts(Like(e, u, gs[0]), u, gs[1..], g);
    }
  }

  /** A run of likes by `u` leaves every other user's counts alone. */
  lemma {:induction false} LikeAllOthersUnchanged(e: Engagements, u: UserId, gs: seq<Genre>, v: UserId, g: Genre)
    requires v != u
    ensures Likes(LikeAll(e, u, gs), v, g) == Likes(e, v, g)
    decreases gs
  {
    if gs != [] {
      LikeAllOthersUnchanged(Like(e, u, gs[0]), u, gs[1..], v, g);
    }
  }
}
