/** The decision logic of the interactive tool: the player search, the park-type label of the
    stadium menu, and the acceptance rules for the player, stadium and year answers. Reading
    the console and printing are not modelled: each rule takes the stripped answer as input. */
module Interactive {
  import opened Optionals
  import opened Sequences
  import opened Stadiums
  import opened Comparison

  // ---------------------------------------------------------------- lower case and substrings

  /** `str.lower` on one character, for the ASCII letters. */
  function LowerChar(c: char): (r: char)
    ensures 'A' <= c <= 'Z' ==> r as int == c as int + 32
    ensures !('A' <= c <= 'Z') ==> r == c
    ensures !('A' <= r <= 'Z')
  {
    if 'A' <= c <= 'Z' then (c as int + 32) as char else c
  }

  function Lower(s: string): (r: string)
    ensures |r| == |s|
    ensures forall i :: 0 <= i < |s| ==> r[i] == LowerChar(s[i])
  {
    seq(|s|, i requires 0 <= i < |s| => LowerChar(s[i]))
  }

  /** Lower-casing twice is lower-casing once. */
  lemma LowerIdempotent(s: string)
    ensures Lower(Lower(s)) == Lower(s)
  {
  }

  /** `q` occurs in `s` starting at position `i`. */
  predicate OccursAt(q: string, s: string, i: int) {
    0 <= i <= |s| - |q| && s[i..i + |q|] == q
  }

  /** `q` occurs in `s` at some position. */
  ghost predicate Occurs(q: string, s: string) {
    exists i :: OccursAt(q, s, i)
  }

  /** `str.contains` with a literal pattern: a left-to-right scan for `q` in `s`. */
  function Contains(s: string, q: string): (r: bool)
    ensures r <==> Occurs(q, s)
    decreases |s|
  {
    if |q| > |s| then false
    else if s[..|q|] == q then
      assert OccursAt(q, s, 0);
      true
    else
      var rest := Contains(s[1..], q);
      assert Occurs(q, s[1..]) ==> Occurs(q, s) by {
        if Occurs(q, s[1..]) {
          var i :| OccursAt(q, s[1..], i);
          assert s[i + 1..i + 1 + |q|] == s[1..][i..i + |q|];
          assert OccursAt(q, s, i + 1);
        }
      }
      assert Occurs(q, s) ==> Occurs(q, s[1..]) by {
        if Occurs(q, s) {
          var i :| OccursAt(q, s, i);
          assert i != 0;
          assert s[1..][i - 1..i - 1 + |q|] == s[i..i + |q|];
          assert OccursAt(q, s[1..], i - 1);
        }
      }
      rest
  }

  // ---------------------------------------------------------------- player search

  /** A row of the hitter table: the FanGraphs id and the full name, which may be missing. */
  datatype Hitter = Hitter(playerId: int, fullName: Option<string>)

  /** The search test of one row: its lower-cased name contains the lower-cased query; a
      missing name never matches. */
  predicate Matches(query: string, h: Hitter) {
    h.fullName.Some? && Contains(Lower(h.fullName.value), Lower(query))
  }

  /** The search mask of one query. */
  function MatchesQuery(query: string): Hitter -> bool {
    (h: Hitter) => Matches(query, h)
  }

  /** `search_player`: the rows that match, in table order. */
  function SearchPlayer(query: string, hitters: seq<Hitter>): (r: seq<Hitter>)
    ensures |r| <= |hitters|
    ensures forall h :: h in r <==> h in hitters && Matches(query, h)
    ensures forall h :: h in r ==> h.fullName.Some?
  {
    FilterKeepsPassing(hitters, MatchesQuery(query));
    Filter(hitters, MatchesQuery(query))
  }

  /** The result keeps the table's order. */
  lemma SearchPlayerKeepsOrder(query: string, hitters: seq<Hitter>)
    ensures IsSubsequence(SearchPlayer(query, hitters), hitters)
  {
    FilterSubsequence(hitters, MatchesQuery(query));
  }

  /** Every name contains the empty query, so it finds exactly the rows that have a name. */
  lemma SearchEmptyQuery(hitters: seq<Hitter>)
    ensures forall h :: h in SearchPlayer("", hitters) <==> h in hitters && h.fullName.Some?
  {
    forall h | h in hitters && h.fullName.Some? ensures Matches("", h) {
      var name := Lower(h.fullName.value);
      assert name[0..0] == Lower("");
    }
  }

  /** The search ignores letter case in the query. */
  lemma SearchIgnoresQueryCase(q1: string, q2: string, hitters: seq<Hitter>)
    requires Lower(q1) == Lower(q2)
    ensures SearchPlayer(q1, hitters) == SearchPlayer(q2, hitters)
  {
    FilterAgree(hitters, MatchesQuery(q1), MatchesQuery(q2));
  }

  /** Two rows whose names differ only in letter case are found by the same queries. */
  lemma SearchIgnoresNameCase(query: string, a: Hitter, b: Hitter)
    requires a.fullName.Some? && b.fullName.Some?
    requires Lower(a.fullName.value) == Lower(b.fullName.value)
    ensures Matches(query, a) <==> Matches(query, b)
  {
  }

  /** What one round of `get_player_selection` does with the stripped query. */
  datatype QueryOutcome =
    | QuitSearch
    | AskAgain
    | NoMatch
    | Selected(hitter: Hitter)
    | Choose(matches: seq<Hitter>)

  /** The three exit words, in any letter case. */
  predicate IsQuit(answer: string) {
    var a := Lower(answer);
    a == "quit" || a == "exit" || a == "q"
  }

  /** One round: quit on an exit word, ask again on an empty query, otherwise search and
      select the single match or list several. */
  function PlayerQuery(query: string, hitters: seq<Hitter>): (r: QueryOutcome)
    ensures r.QuitSearch? <==> IsQuit(query)
    ensures r.AskAgain? <==> !IsQuit(query) && query == ""
    ensures r.NoMatch? ==> forall h :: h in hitters ==> !Matches(query, h)
    ensures r.Selected? ==> r.hitter in hitters && Matches(query, r.hitter) &&
                            forall h :: h in hitters && Matches(query, h) ==> h == r.hitter
    ensures r.Choose? ==> |r.matches| >= 2 && forall h :: h in r.matches <==> h in hitters && Matches(query, h)
    ensures r.NoMatch? ==> SearchPlayer(query, hitters) == []
    ensures r.Selected? ==> SearchPlayer(query, hitters) == [r.hitter]
    ensures r.Choose? ==> r.matches == SearchPlayer(query, hitters)
  {
    if IsQuit(query) then QuitSearch
    else if query == "" then AskAgain
    else
      var matches := SearchPlayer(query, hitters);
      if |matches| == 0 then NoMatch
      else if |matches| == 1 then
        assert forall h :: h in matches ==> h == matches[0];
        Selected(matches[0])
      else Choose(matches)
  }

  // ---------------------------------------------------------------- menu answers

  /** A numbered answer is accepted when it names one of the `count` listed options. */
  predicate AcceptChoice(n: int, count: nat) {
    1 <= n <= count
  }

  /** The player picked from a list of several matches by its 1-based number. */
  function PickPlayer(matches: seq<Hitter>, n: int): (r: Option<Hitter>)
    ensures r.Some? <==> AcceptChoice(n, |matches|)
    ensures r.Some? ==> r.value == matches[n - 1] && r.value in matches
  {
    if AcceptChoice(n, |matches|) then Some(matches[n - 1]) else None
  }

  /** The stadium picked from the numbered menu; the menu lists the registry in order from 1. */
  function PickStadium(n: int): (r: Option<Stadium>)
    ensures r.Some? <==> AcceptChoice(n, |Registry|)
    ensures r.Some? ==> r.value == Registry[n - 1]
    ensures r.Some? ==> r.value in Registry && StadiumLookup(r.value.name) == r
  {
    if AcceptChoice(n, |Registry|) then Some(Registry[n - 1]) else None
  }

  /** Every registered stadium can be picked, by its position in the menu. */
  lemma EveryStadiumCanBePicked(s: Stadium)
    requires s in Registry
    ensures exists n :: 1 <= n <= |Registry| && PickStadium(n) == Some(s)
  {
    var i :| 0 <= i < |Registry| && Registry[i] == s;
    assert PickStadium(i + 1) == Some(s);
  }

  /** The park-type shown beside each menu entry. */
  function MenuParkType(pf: real): string {
    if pf > 1.05 then "Hitter-friendly" else if pf < 0.95 then "Pitcher-friendly" else "Neutral"
  }

  /** The menu's label is the scorer's label for every park factor. */
  lemma MenuParkTypeAgrees(pf: real)
    ensures MenuParkType(pf) == Advantage(pf).Label()
  {
  }

  /** The year prompt's answer, after `int()` has been tried on a non-empty answer. */
  datatype YearAnswer = Blank | Year(value: int) | NotANumber

  /** The year loop's test: an empty answer means 2024, a number is kept when it lies in
      2015..2024, anything else is asked again. */
  function AcceptYear(answer: YearAnswer): (r: Option<int>)
    ensures r.Some? ==> 2015 <= r.value <= 2024
    ensures answer.Blank? ==> r == Some(2024)
    ensures answer.NotANumber? ==> r.None?
    ensures answer.Year? ==> (r.Some? <==> 2015 <= answer.value <= 2024)
    ensures answer.Year? && r.Some? ==> r.value == answer.value
  {
    match answer
    case Blank => Some(2024)
    case Year(y) => if 2015 <= y <= 2024 then Some(y) else None
    case NotANumber => None
  }
}
