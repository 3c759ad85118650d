/**
 * Scoring the candidate page against the preference text, keeping the items
 * whose relevance is above the threshold, and deriving each kept item's
 * personalised copy.
 */
module Selection {
  import opened Activities

  /** Items are kept when their relevance is strictly above this. */
  const Threshold: real := 0.7

  /**
   * What one oracle call gives back: the call itself failed (no reply, or a
   * reply without a first choice), or it replied and the reply's text was
   * read as a number (`Some`) or was not a number (`None`, `NaN`).
   */
  datatype OracleReply = Unavailable | Replied(parsed: Option<real>)

  /**
   * The scoring oracle, as a function of what the prompt is built from: the
   * activity's genre and popularity and the user's preference text.
   */
  type Oracle = (Option<Genre>, int, string) -> OracleReply

  /** The relevance of a reply: its number, or 0 when it was not a number. */
  function RelevanceOf(parsed: Option<real>): (r: real)
    ensures parsed.None? ==> r == 0.0
    ensures parsed.Some? ==> r == parsed.value
  {
    match parsed
    case None => 0.0
    case Some(v) => v
  }

  /** The oracle's reply for `a`. */
  function Ask(oracle: Oracle, a: Activity, text: string): OracleReply {
    oracle(a.genre, a.popularity, text)
  }

  /** Every oracle call for the page got a reply. */
  ghost predicate AllReplied(page: seq<Activity>, text: string, oracle: Oracle) {
    forall i :: 0 <= i < |page| ==> Ask(oracle, page[i], text).Replied?
  }

  /**
   * Scores every activity of the page: each one with its relevance set;
   * one failed call rejects the whole batch.
   */
  function ScoreAll(page: seq<Activity>, text: string, oracle: Oracle): (r: Option<seq<Activity>>)
    ensures r.Some? <==> AllReplied(page, text, oracle)
    ensures r.Some? ==> |r.value| == |page|
    ensures r.Some? ==> forall i :: 0 <= i < |page| ==>
      r.value[i] == page[i].(relevance := Some(RelevanceOf(Ask(oracle, page[i], text).parsed)))
  {
    if page == [] then Some([])
    else
      var reply := Ask(oracle, page[0], text);
      match reply
      case Unavailable => None
      case Replied(parsed) =>
        match ScoreAll(page[1..], text, oracle)
        case None => None
        case Some(rest) =>
          assert forall i :: 0 < i < |page| ==> page[i] == page[1..][i - 1];
          Some([page[0].(relevance := Some(RelevanceOf(parsed)))] + rest)
  }

  /** Relevance strictly above the threshold; an activity without a relevance never is. */
  predicate Above(a: Activity)
    ensures Above(a) ==> a.relevance.Some?
    ensures a.relevance.Some? && a.relevance.value <= Threshold ==> !Above(a)
    ensures a.relevance.Some? && a.relevance.value > Threshold ==> Above(a)
  {
    a.relevance.Some? && a.relevance.value > Threshold
  }

  /** The scored items above the threshold, in their order. */
  function Keep(s: seq<Activity>): (r: seq<Activity>)
    ensures |r| <= |s|
    ensures forall a :: a in r <==> a in s && Above(a)
  {
    if s == [] then []
    else
      assert s == [s[0]] + s[1..];
      (if Above(s[0]) then [s[0]] else []) + Keep(s[1..])
  }

  /** The filter keeps order: filtering a concatenation concatenates the filtered parts. */
  lemma {:induction false} KeepAppend(s: seq<Activity>, t: seq<Activity>)
    ensures Keep(s + t) == Keep(s) + Keep(t)
  {
    if s == [] {
      assert s + t == t;
    } else {
      var head := if Above(s[0]) then [s[0]] else [];
      assert (s + t)[0] == s[0];
      assert (s + t)[1..] == s[1..] + t;
      KeepAppend(s[1..], t);
      calc {
        Keep(s + t);
        head + Keep(s[1..] + t);
        head + (Keep(s[1..]) + Keep(t));
        (head + Keep(s[1..])) + Keep(t);
      }
    }
  }

  /** A reply that was not a number gives relevance 0, which is never kept. */
  lemma UnparseableNeverKept(a: Activity)
    ensures !Above(a.(relevance := Some(RelevanceOf(None))))
  {
  }

  /** Id of the personalised copy: the source id, then `:p-`, then the user id. */
  function DerivedId(fid: ForeignId, u: UserId): (id: ForeignId)
    ensures |id| == |fid| + 3 + |u|
    ensures id[..|fid|] == fid && id[|fid|..|fid| + 3] == ":p-" && id[|fid| + 3..] == u
  {
    fid + ":p-" + u
  }

  /** Key of a user's personalised feed: `personalized:` followed by the user id. */
  function PersonalizedTarget(u: UserId): string {
    "personalized:" + u
  }

  /** The personalised copy of a kept item for user `u`. */
  function Copy(a: Activity, u: UserId): (c: Activity)
    ensures c.foreignId == DerivedId(a.foreignId, u)
    ensures c.to == [PersonalizedTarget(u)]
    ensures c.(foreignId := a.foreignId, to := a.to) == a
  {
    Activity(a.actor, a.verb, a.obj, DerivedId(a.foreignId, u), a.genre, a.popularity,
             a.time, a.relevance, [PersonalizedTarget(u)])
  }

  /** The personalised copies of the scored items above the threshold, in order. */
  function Select(s: seq<Activity>, u: UserId): (r: seq<Activity>)
    ensures |r| == |Keep(s)|
    ensures forall k :: 0 <= k < |r| ==> r[k] == Copy(Keep(s)[k], u)
  {
    var kept := Keep(s);
    seq(|kept|, k requires 0 <= k < |kept| => Copy(kept[k], u))
  }

  /**
   * The selection holds exactly the copies of the items above the threshold;
   * each copy is above the threshold itself and addressed to the user's feed.
   */
  lemma SelectMembers(s: seq<Activity>, u: UserId)
    ensures forall a :: a in s && Above(a) ==> Copy(a, u) in Select(s, u)
    ensures forall c :: c in Select(s, u) ==> exists a :: a in s && Above(a) && c == Copy(a, u)
    ensures forall c :: c in Select(s, u) ==> Above(c) && c.to == [PersonalizedTarget(u)]
  {
    var kept := Keep(s);
    var r := Select(s, u);
    forall a | a in s && Above(a) ensures Copy(a, u) in r {
      assert a in kept;
      var k :| 0 <= k < |kept| && kept[k] == a;
      assert r[k] == Copy(a, u);
    }
    forall c | c in r ensures exists a :: a in s && Above(a) && c == Copy(a, u) {
      var k :| 0 <= k < |r| && r[k] == c;
      assert kept[k] in kept;
    }
    forall c | c in r ensures Above(c) && c.to == [PersonalizedTarget(u)] {
      var k :| 0 <= k < |r| && r[k] == c;
      assert kept[k] in kept;
    }
  }

  /** Selecting from a concatenation selects from each part, in order. */
  lemma SelectAppend(s: seq<Activity>, t: seq<Activity>, u: UserId)
    ensures Select(s + t, u) == Select(s, u) + Select(t, u)
  {
    KeepAppend(s, t);
  }

  /** For one user, distinct source ids give distinct derived ids. */
  lemma DerivedIdInjective(a: ForeignId, b: ForeignId, u: UserId)
    requires DerivedId(a, u) == DerivedId(b, u)
    ensures a == b
  {
    assert |a| == |b|;
    assert a == DerivedId(a, u)[..|a|];
    assert b == DerivedId(b, u)[..|b|];
  }

  /**
   * Across users the derived ids can collide: the copy of `x:p-y` for user
   * `u` and the copy of `x` for user `y:p-u` get the same id.
   */
  lemma DerivedIdsCollideAcrossUsers()
    ensures exists a, b, u, v :: u != v && a != b && DerivedId(a, u) == DerivedId(b, v)
  {
    assert DerivedId("x:p-y", "u") == DerivedId("x", "y:p-u");
  }

  /** No two entries share a foreign id. */
  ghost predicate DistinctIds(s: seq<Activity>) {
    forall i, j :: 0 <= i < j < |s| ==> s[i].foreignId != s[j].foreignId
  }

  lemma {:induction false} KeepDistinct(s: seq<Activity>)
    requires DistinctIds(s)
    ensures DistinctIds(Keep(s))
  {
    if s != [] {
      var rest := Keep(s[1..]);
      assert DistinctIds(s[1..]) by {
        forall i, j | 0 <= i < j < |s[1..]| ensures s[1..][i].foreignId != s[1..][j].foreignId {
          assert s[1..][i] == s[i + 1] && s[1..][j] == s[j + 1];
        }
      }
      KeepDistinct(s[1..]);
      if Above(s[0]) {
        var r := [s[0]] + rest;
        forall j | 0 < j < |r| ensures r[0].foreignId != r[j].foreignId {
          assert r[j] in rest;
          var m :| 0 <= m < |s[1..]| && s[1..][m] == r[j];
          assert s[m + 1] == r[j];
        }
        assert DistinctIds(r);
      }
    }
  }

  /** A page without duplicate ids yields copies without duplicate ids. */
  lemma SelectDistinct(s: seq<Activity>, u: UserId)
    requires DistinctIds(s)
    ensures DistinctIds(Select(s, u))
  {
    var r := Select(s, u);
    KeepDistinct(s);
    forall i, j | 0 <= i < j < |r| ensures r[i].foreignId != r[j].foreignId {
      if r[i].foreignId == r[j].foreignId {
        DerivedIdInjective(Keep(s)[i].foreignId, Keep(s)[j].foreignId, u);
      }
    }
  }
}
