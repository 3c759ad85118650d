/**
 * The two request handlers that change state: recording a like
 * (`POST /engage/:userId`) and rebuilding a user's personalised feed
 * (`POST /rebuild-personalized/:userId`), over an in-memory stand-in for the
 * feed service and the ledger file.
 */
module Server {
  import opened Activities
  import opened Ledger
  import opened Preferences
  import opened Selection

  /**
   * The feed service as the handlers use it: the global feed, and one
   * personalised feed per user (a user without one has an empty feed).
   * Sequences are in the store's own order; a read returns the first 100
   * entries.
   */
  class FeedStore {
    var global: seq<Activity>
    var personalized: map<UserId, seq<Activity>>

    constructor (global: seq<Activity>, personalized: map<UserId, seq<Activity>>)
      ensures this.global == global && this.personalized == personalized
    {
      this.global := global;
      this.personalized := personalized;
    }

    /** The feed `personalized:u`. */
    function PersonalizedFeed(u: UserId): seq<Activity>
      reads this
    {
      if u in personalized then personalized[u] else []
    }

    /**
     * Removal by foreign id from the feed `personalized:u`: it drops the
     * entries with that foreign id; `fails` stands for the service rejecting
     * the call, which changes nothing.
     */
    method RemoveActivity(u: UserId, fid: ForeignId, fails: bool) returns (ok: bool)
      modifies this
      ensures ok == !fails
      ensures global == old(global)
      ensures PersonalizedFeed(u) == if ok then Without(old(PersonalizedFeed(u)), {fid}) else old(PersonalizedFeed(u))
      ensures forall v :: v != u ==> PersonalizedFeed(v) == old(PersonalizedFeed(v))
    {
      if fails {
        return false;
      }
      personalized := personalized[u := Without(PersonalizedFeed(u), {fid})];
      ok := true;
    }

    /**
     * Adding activities to the global feed: it appends them at the end;
     * `fails` stands for the service rejecting the call.
     */
    method AddActivities(acts: seq<Activity>, fails: bool) returns (ok: bool)
      modifies this
      ensures ok == !fails
      ensures global == if ok then old(global) + acts else old(global)
      ensures personalized == old(personalized)
    {
      if fails {
        return false;
      }
      global := global + acts;
      ok := true;
    }
  }

  /** How a rebuild ends: the copies it added, or the step that threw. */
  datatype RebuildResult =
    | Rebuilt(added: seq<Activity>)
    | ScoringFailed
    | RemovalFailed(foreignId: ForeignId)
    | AppendFailed

  /**
   * How many of `items` the removal loop gets through before the first one
   * whose removal is rejected (all of them when none is).
   */
  function RemovedBefore(items: seq<Activity>, rejected: set<ForeignId>): (n: nat)
    ensures n <= |items|
    ensures forall j :: 0 <= j < n ==> items[j].foreignId !in rejected
    ensures n < |items| ==> items[n].foreignId in rejected
  {
    if items == [] || items[0].foreignId in rejected then 0
    else 1 + RemovedBefore(items[1..], rejected)
  }

  /** After a complete removal loop, a feed that fitted in one page is empty. */
  lemma SmallFeedCleared(feed: seq<Activity>)
    requires |feed| <= PageLimit
    ensures Without(feed, IdSet(Page(feed, PageLimit))) == []
  {
    WithoutOwnIds(feed, IdSet(feed));
  }

  /**
   * The server: the ledger as last saved to `engagements.json`, and the
   * feed service it talks to.
   */
  class Server {
    var engagements: Engagements
    const store: FeedStore

    constructor (store: FeedStore, engagements: Engagements)
      ensures this.store == store && this.engagements == engagements
    {
      this.store := store;
      this.engagements := engagements;
    }

    /**
     * `POST /engage/:userId` with body `{ foreign_id: fid }`. The ledger is
     * saved only when the like resolves to a genre; otherwise it is left as
     * it was and the request fails.
     */
    method Engage(u: UserId, fid: ForeignId) returns (ok: bool)
      modifies this
      ensures var outcome := RecordLike(old(engagements), u, Page(store.global, PageLimit), fid);
        && ok == outcome.Ok?
        && engagements == if ok then outcome.ledger else old(engagements)
      ensures LedgerDistinct(old(engagements)) ==> LedgerDistinct(engagements)
    {
      var ledger := engagements;
      ledger := ledger[u := ProfileOf(ledger, u)];
      var page := Page(store.global, PageLimit);
      var found := FindIndex(page, fid);
      if found.None? || !HasGenre(page[found.value]) {
        return false;
      }
      var genre := page[found.value].genre.value;
      ledger := ledger[u := Increment(ledger[u], genre)];
      assert ledger == Like(engagements, u, genre);
      if LedgerDistinct(engagements) {
        LikeKeepsDistinct(engagements, u, genre);
      }
      engagements := ledger;
      ok := true;
    }

    /**
     * The clearing loop of a rebuild: read the first page of `personalized:u`
     * and remove its entries one foreign id at a time, stopping at the first
     * removal the service rejects (whose id is returned).
     */
    method RemoveOldItems(u: UserId, rejected: set<ForeignId>) returns (failed: Option<ForeignId>)
      modifies store
      ensures store.global == old(store.global)
      ensures forall v :: v != u ==> store.PersonalizedFeed(v) == old(store.PersonalizedFeed(v))
      ensures var oldItems := Page(old(store.PersonalizedFeed(u)), PageLimit);
        var n := RemovedBefore(oldItems, rejected);
        && store.PersonalizedFeed(u) == Without(old(store.PersonalizedFeed(u)), IdSet(oldItems[..n]))
        && failed == if n < |oldItems| then Some(oldItems[n].foreignId) else None
    {
      ghost var before := store.PersonalizedFeed(u);
      var oldItems := Page(store.PersonalizedFeed(u), PageLimit);
      var i := 0;
      assert IdSet(oldItems[..0]) == {};
      WithoutNothing(before);
      while i < |oldItems|
        invariant 0 <= i <= RemovedBefore(oldItems, rejected)
        invariant store.global == old(store.global)
        invariant store.PersonalizedFeed(u) == Without(before, IdSet(oldItems[..i]))
        invariant forall v :: v != u ==> store.PersonalizedFeed(v) == old(store.PersonalizedFeed(v))
      {
        var fid := oldItems[i].foreignId;
        var ok := store.RemoveActivity(u, fid, fid in rejected);
        if !ok {
          assert i == RemovedBefore(oldItems, rejected);
          return Some(fid);
        }
        WithoutTwice(before, IdSet(oldItems[..i]), fid);
        IdSetPrefix(oldItems, i);
        i := i + 1;
      }
      assert oldItems[..i] == oldItems;
      assert i == RemovedBefore(oldItems, rejected);
      failed := None;
    }

    /**
     * `POST /rebuild-personalized/:userId`: score the first page of the
     * global feed against the user's preference text, clear the user's
     * personalised feed, then append the copies of the items above the
     * threshold to the global feed, addressed to `personalized:u`. Any step
     * that throws ends the rebuild there. `rejected` names the foreign ids
     * whose removal the service rejects; `appendFails` says whether it
     * rejects the append.
     */
    method RebuildPersonalized(u: UserId, oracle: Oracle, rejected: set<ForeignId>, appendFails: bool)
      returns (r: RebuildResult)
      modifies store
      ensures forall v :: v != u ==> store.PersonalizedFeed(v) == old(store.PersonalizedFeed(v))
      ensures var scored := ScoreAll(Page(old(store.global), PageLimit), PreferenceText(ProfileOf(engagements, u)), oracle);
        scored.None? ==>
          && r == ScoringFailed
          && store.global == old(store.global)
          && store.PersonalizedFeed(u) == old(store.PersonalizedFeed(u))
      ensures var scored := ScoreAll(Page(old(store.global), PageLimit), PreferenceText(ProfileOf(engagements, u)), oracle);
        var oldItems := Page(old(store.PersonalizedFeed(u)), PageLimit);
        var n := RemovedBefore(oldItems, rejected);
        scored.Some? ==>
          && store.PersonalizedFeed(u) == Without(old(store.PersonalizedFeed(u)), IdSet(oldItems[..n]))
          && (n < |oldItems| ==> r == RemovalFailed(oldItems[n].foreignId) && store.global == old(store.global))
          && (n == |oldItems| && appendFails ==> r == AppendFailed && store.global == old(store.global))
          && (n == |oldItems| && !appendFails ==>
                && r == Rebuilt(Select(scored.value, u))
                && store.global == old(store.global) + Select(scored.value, u))
    {
      var text := PreferenceText(ProfileOf(engagements, u));
      var candidates := Page(store.global, PageLimit);
      var scored := ScoreAll(candidates, text, oracle);
      if scored.None? {
        return ScoringFailed;
      }
      var failed := RemoveOldItems(u, rejected);
      if failed.Some? {
        return RemovalFailed(failed.value);
      }
      var topPosts := Select(scored.value, u);
      var added := store.AddActivities(topPosts, appendFails);
      if !added {
        return AppendFailed;
      }
      r := Rebuilt(topPosts);
    }
  }
}
