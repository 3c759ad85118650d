/**
 * The preference text sent to the scoring oracle: a user's profile entries
 * sorted by like count, highest first, with ties left in insertion order
 * (a stable sort), rendered one `- genre (n likes)` line each; an empty
 * profile renders as a fixed sentence.
 */
module Preferences {
  import opened Activities
  import opened Ledger

  const NoPreferences: string := "No strong preferences."

  /** Like counts never increase from left to right. */
  ghost predicate NonIncreasing(r: Profile) {
    forall i, j :: 0 <= i < j < |r| ==> r[i].likes >= r[j].likes
  }

  /** The entries of `p` with exactly `n` likes, in their order in `p`. */
  function WithLikes(p: Profile, n: nat): Profile {
    if p == [] then []
    else (if p[0].likes == n then [p[0]] else []) + WithLikes(p[1..], n)
  }

  lemma WithLikesCons(e: Entry, s: Profile, n: nat)
    ensures WithLikes([e] + s, n) == (if e.likes == n then [e] else []) + WithLikes(s, n)
  {
    assert ([e] + s)[1..] == s;
  }

  /** Putting an entry with at least the likes of the first one in front keeps the order. */
  lemma ConsNonIncreasing(x: Entry, t: Profile)
    requires NonIncreasing(t)
    requires t != [] ==> t[0].likes <= x.likes
    ensures NonIncreasing([x] + t)
  {
    var r := [x] + t;
    forall i, j | 0 <= i < j < |r| ensures r[i].likes >= r[j].likes {
      if i == 0 && j > 1 { assert r[j] == t[j - 1] && t[0].likes >= t[j - 1].likes; }
    }
  }

  /**
   * Places `e` in front of the first entry that does not have more likes:
   * entries with more likes stay ahead of it, ties come after it.
   */
  function Insert(e: Entry, s: Profile): (r: Profile)
    requires NonIncreasing(s)
    ensures NonIncreasing(r)
    ensures multiset(r) == multiset(s) + multiset{e}
    ensures |r| > 0 && (r[0] == e || (s != [] && r[0] == s[0]))
  {
    if s == [] || s[0].likes <= e.likes then [e] + s
    else
      var rest := Insert(e, s[1..]);
      assert s == [s[0]] + s[1..];
      ConsNonIncreasing(s[0], rest);
      [s[0]] + rest
  }

  /** The profile's entries sorted by like count, highest first (a stable sort). */
  function Rank(p: Profile): (r: Profile)
    ensures NonIncreasing(r)
    ensures multiset(r) == multiset(p)
  {
    if p == [] then []
    else
      assert p == [p[0]] + p[1..];
      Insert(p[0], Rank(p[1..]))
  }

  /** Insertion keeps the tie order: `e` goes in front of every entry with as many likes. */
  lemma {:induction false} InsertStable(e: Entry, s: Profile, n: nat)
    requires NonIncreasing(s)
    ensures WithLikes(Insert(e, s), n) == WithLikes([e] + s, n)
  {
    if s == [] || s[0].likes <= e.likes {
    } else {
      var rest := Insert(e, s[1..]);
      assert s == [s[0]] + s[1..];
      InsertStable(e, s[1..], n);
      WithLikesCons(s[0], rest, n);
      WithLikesCons(e, s[1..], n);
      WithLikesCons(s[0], s[1..], n);
      WithLikesCons(e, s, n);
    }
  }

  /** The ranking is stable: for every count, the entries with that count keep their order. */
  lemma {:induction false} RankStable(p: Profile, n: nat)
    ensures WithLikes(Rank(p), n) == WithLikes(p, n)
  {
    if p != [] {
      RankStable(p[1..], n);
      InsertStable(p[0], Rank(p[1..]), n);
      WithLikesCons(p[0], Rank(p[1..]), n);
      WithLikesCons(p[0], p[1..], n);
      assert p == [p[0]] + p[1..];
    }
  }

  /** Every character is a decimal digit. */
  predicate AllDigits(s: string) {
    forall c :: c in s ==> '0' <= c <= '9'
  }

  /** The number a string of decimal digits denotes, read left to right. */
  function DigitsValue(s: string): nat
    requires AllDigits(s)
  {
    if s == [] then 0
    else
      var init, last := s[..|s| - 1], s[|s| - 1];
      assert last in s && forall c :: c in init ==> c in s;
      DigitsValue(init) * 10 + (last as int - '0' as int)
  }

  /** Decimal digits of `n`, as a whole number is rendered in a template string. */
  function NatToString(n: nat): (s: string)
    ensures |s| > 0 && AllDigits(s)
    ensures DigitsValue(s) == n
    ensures s[0] != '0' || s == "0"
    decreases n
  {
    var d := ['0' + (n % 10) as char];
    if n < 10 then d
    else
      var prefix := NatToString(n / 10);
      var s := prefix + d;
      assert s[..|s| - 1] == prefix;
      s
  }

  /** One line of the preference text: `- `, the genre, ` (`, the count, ` likes)`. */
  function Line(e: Entry): (s: string)
    ensures |s| == |e.genre| + |NatToString(e.likes)| + 11
    ensures s[..2] == "- " && s[2..2 + |e.genre|] == e.genre
    ensures s[|s| - 7..] == " likes)"
    ensures s[2 + |e.genre|..4 + |e.genre|] == " (" && s[4 + |e.genre|..|s| - 7] == NatToString(e.likes)
    ensures '\n' !in e.genre ==> '\n' !in s
  {
    var count := NatToString(e.likes);
    var s := "- " + e.genre + " (" + count + " likes)";
    assert '\n' !in count;
    s
  }

  /** The lines of a ranking, joined with a newline between two lines. */
  function JoinLines(r: Profile): (s: string)
    ensures r == [] <==> s == ""
    ensures r != [] ==> s[0] == '-'
    ensures |r| == 1 ==> s == Line(r[0])
  {
    if r == [] then ""
    else if |r| == 1 then Line(r[0])
    else Line(r[0]) + "\n" + JoinLines(r[1..])
  }

  /** One more entry adds its line after a newline. */
  lemma {:induction false} JoinLinesSnoc(r: Profile, e: Entry)
    requires r != []
    ensures JoinLines(r + [e]) == JoinLines(r) + "\n" + Line(e)
  {
    var t := r + [e];
    assert t[0] == r[0] && |t| > 1;
    if |r| > 1 {
      assert t[1..] == r[1..] + [e];
      JoinLinesSnoc(r[1..], e);
      calc {
        JoinLines(t);
        Line(r[0]) + "\n" + JoinLines(r[1..] + [e]);
        Line(r[0]) + "\n" + (JoinLines(r[1..]) + "\n" + Line(e));
        (Line(r[0]) + "\n" + JoinLines(r[1..])) + "\n" + Line(e);
      }
    } else {
      assert t[1..] == [e];
    }
  }

  /**
   * When no genre contains a newline, the text of `n` entries has exactly
   * `n - 1` newlines: one between each two lines.
   */
  lemma {:induction false} JoinLinesNewlines(r: Profile)
    requires forall i :: 0 <= i < |r| ==> '\n' !in r[i].genre
    ensures multiset(JoinLines(r))['\n'] == if r == [] then 0 else |r| - 1
  {
    if r != [] {
      assert '\n' !in Line(r[0]);
      if |r| > 1 {
        JoinLinesNewlines(r[1..]);
      }
    }
  }

  /** The ranked lines joined by newlines, or the fixed sentence for an empty profile. */
  function PreferenceText(p: Profile): (t: string)
    ensures p == [] ==> t == NoPreferences
    ensures p != [] ==> t == JoinLines(Rank(p))
  {
    var joined := JoinLines(Rank(p));
    assert p != [] ==> |multiset(Rank(p))| == |p|;
    if joined == "" then NoPreferences else joined
  }

  /** The fixed sentence is produced by the empty profile and by no other. */
  lemma PreferenceTextEmpty(p: Profile)
    ensures PreferenceText(p) == NoPreferences <==> p == []
  {
    if p != [] {
      assert |multiset(Rank(p))| == |p|;
      assert Rank(p) != [];
      assert NoPreferences[0] == 'N';
    }
  }

  /** Two likes of jazz, then one of rock, on an empty ledger: jazz 2, then rock 1. */
  lemma JazzRockLedger(u: UserId)
    ensures ProfileOf(LikeAll(map[], u, ["jazz", "jazz", "rock"]), u) == [Entry("jazz", 2), Entry("rock", 1)]
  {
    var e1 := Like(map[], u, "jazz");
    assert ProfileOf(e1, u) == [Entry("jazz", 1)];
    var e2 := Like(e1, u, "jazz");
    assert ProfileOf(e2, u) == [Entry("jazz", 2)];
    var e3 := Like(e2, u, "rock");
    assert [Entry("jazz", 2)][1..] == [];
    assert ProfileOf(e3, u) == [Entry("jazz", 2), Entry("rock", 1)];
    calc {
      LikeAll(map[], u, ["jazz", "jazz", "rock"]);
      { assert ["jazz", "jazz", "rock"][1..] == ["jazz", "rock"]; }
      LikeAll(e1, u, ["jazz", "rock"]);
      { assert ["jazz", "rock"][1..] == ["rock"]; }
      LikeAll(e2, u, ["rock"]);
      { assert ["rock"][1..] == []; }
      e3;
    }
  }

  /** That profile is already ranked: jazz with 2 likes ahead of rock with 1. */
  lemma JazzRockRank()
    ensures Rank([Entry("jazz", 2), Entry("rock", 1)]) == [Entry("jazz", 2), Entry("rock", 1)]
  {
    var p := [Entry("jazz", 2), Entry("rock", 1)];
    assert p[1..] == [Entry("rock", 1)];
    assert [Entry("rock", 1)][1..] == [];
    assert Rank([Entry("rock", 1)]) == [Entry("rock", 1)];
  }

  /** A count below ten renders as its one digit. */
  lemma SingleDigitLine(e: Entry)
    requires e.likes < 10
    ensures Line(e) == "- " + e.genre + " (" + ['0' + e.likes as char] + " likes)"
  {
    assert NatToString(e.likes) == ['0' + (e.likes % 10) as char];
  }

  lemma JazzLine()
    ensures Line(Entry("jazz", 2)) == "- jazz (2 likes)"
  {
    SingleDigitLine(Entry("jazz", 2));
    assert '0' + 2 as char == '2';
  }

  lemma RockLine()
    ensures Line(Entry("rock", 1)) == "- rock (1 likes)"
  {
    SingleDigitLine(Entry("rock", 1));
    assert '0' + 1 as char == '1';
  }

  /** Its lines, joined: jazz, then rock. */
  lemma JazzRockLines()
    ensures JoinLines([Entry("jazz", 2), Entry("rock", 1)]) == "- jazz (2 likes)" + "\n" + "- rock (1 likes)"
  {
    var jazz, rock := Entry("jazz", 2), Entry("rock", 1);
    JoinLinesSnoc([jazz], rock);
    assert [jazz] + [rock] == [jazz, rock];
    assert JoinLines([jazz]) == Line(jazz);
    JazzLine();
    RockLine();
  }

  /** So its preference text lists jazz, then rock. */
  lemma JazzRockText()
    ensures PreferenceText([Entry("jazz", 2), Entry("rock", 1)]) == "- jazz (2 likes)" + "\n" + "- rock (1 likes)"
  {
    JazzRockRank();
    JazzRockLines();
  }
}
