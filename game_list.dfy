/** The game list of the Studio: the bounded multi-select of up to three
    games, the "has result" flags handed to the wizard, the split of fetched
    games into past / today / future with its ordering, and the grouping of the
    shown games by date. */
module GameListing {
  import opened Common
  import Sorting
  import Lists

  /** How many games one template can show. */
  const MaxGamesPerTemplate: nat := 3

  /** A game as the endpoints deliver it; an absent result is the empty string. */
  datatype Game = Game(id: string, result: string, date: string, time: string, teamHome: string, teamAway: string)

  // ---------------------------------------------------------------------------
  // Selection toggle

  /** `prev.filter(x => x !== id)`. */
  function RemoveId(s: seq<string>, id: string): (r: seq<string>)
    ensures forall x :: x in r <==> x in s && x != id
    ensures |r| <= |s|
  {
    if s == [] then []
    else (if s[0] == id then [] else [s[0]]) + RemoveId(s[1..], id)
  }

  /** Removing an id that occurs once deletes exactly that position. */
  lemma {:induction false} RemoveUniqueAt(s: seq<string>, k: nat)
    requires k < |s| && NoDuplicates(s)
    ensures RemoveId(s, s[k]) == s[..k] + s[k + 1..]
  {
    var tail := s[1..];
    TailNoDuplicates(s);
    if k == 0 {
      RemoveAbsent(tail, s[0]);
    } else {
      assert tail[k - 1] == s[k];
      assert s[0] != s[k];
      RemoveUniqueAt(tail, k - 1);
      assert s[..k] == [s[0]] + tail[..k - 1];
      assert s[k + 1..] == tail[k..];
    }
  }

  /** A duplicate-free list has a duplicate-free tail that misses its head. */
  lemma TailNoDuplicates(s: seq<string>)
    requires NoDuplicates(s) && s != []
    ensures NoDuplicates(s[1..]) && s[0] !in s[1..]
  {
    var tail := s[1..];
    forall i, j | 0 <= i < j < |tail| ensures tail[i] != tail[j] {
      assert tail[i] == s[i + 1] && tail[j] == s[j + 1];
    }
    forall j | 0 <= j < |tail| ensures tail[j] != s[0] {
      assert tail[j] == s[j + 1];
    }
  }

  lemma {:induction false} RemoveAbsent(s: seq<string>, id: string)
    requires id !in s
    ensures RemoveId(s, id) == s
  {
    if s != [] {
      RemoveAbsent(s[1..], id);
      assert s == [s[0]] + s[1..];
    }
  }

  lemma {:induction false} RemoveKeepsNoDuplicates(s: seq<string>, id: string)
    requires NoDuplicates(s)
    ensures NoDuplicates(RemoveId(s, id))
  {
    if s != [] {
      var tail := s[1..];
      TailNoDuplicates(s);
      RemoveKeepsNoDuplicates(tail, id);
      var rest := RemoveId(tail, id);
      if s[0] != id {
        var r := [s[0]] + rest;
        forall i, j | 0 <= i < j < |r| ensures r[i] != r[j] {
          if i == 0 {
            assert r[j] in rest;
          } else {
            assert r[i] == rest[i - 1] && r[j] == rest[j - 1];
          }
        }
      }
    }
  }

  /** `handleGameToggle`: a selected id is removed; a new id is appended while
      fewer than three are selected, and otherwise ignored. */
  function Toggle(prev: seq<string>, id: string): (r: seq<string>)
    ensures id in r <==> id !in prev && |prev| < MaxGamesPerTemplate
    ensures forall x :: x != id ==> (x in r <==> x in prev)
    ensures |prev| <= MaxGamesPerTemplate ==> |r| <= MaxGamesPerTemplate
  {
    if id in prev then RemoveId(prev, id)
    else if |prev| >= MaxGamesPerTemplate then prev
    else prev + [id]
  }

  /** What a toggle does, case by case. */
  lemma ToggleEffect(prev: seq<string>, id: string)
    requires NoDuplicates(prev)
    ensures id in prev ==>
      exists k :: 0 <= k < |prev| && prev[k] == id && Toggle(prev, id) == prev[..k] + prev[k + 1..]
    ensures id !in prev && |prev| >= MaxGamesPerTemplate ==> Toggle(prev, id) == prev
    ensures id !in prev && |prev| < MaxGamesPerTemplate ==> Toggle(prev, id) == prev + [id]
    ensures id in Toggle(prev, id) <==> id !in prev && |prev| < MaxGamesPerTemplate
  {
    if id in prev {
      var k :| 0 <= k < |prev| && prev[k] == id;
      RemoveUniqueAt(prev, k);
    }
  }

  /** The selection stays duplicate-free and within the cap. */
  predicate SelectionOk(s: seq<string>) {
    |s| <= MaxGamesPerTemplate && NoDuplicates(s)
  }

  lemma TogglePreservesSelectionOk(prev: seq<string>, id: string)
    requires SelectionOk(prev)
    ensures SelectionOk(Toggle(prev, id))
  {
    RemoveKeepsNoDuplicates(prev, id);
  }

  /** Toggling a new id twice below the cap restores the list exactly;
      toggling any id twice restores the set of selected ids. */
  lemma ToggleTwice(prev: seq<string>, id: string)
    requires SelectionOk(prev)
    ensures id !in prev && |prev| < MaxGamesPerTemplate ==> Toggle(Toggle(prev, id), id) == prev
    ensures forall x :: x in Toggle(Toggle(prev, id), id) <==> x in prev
  {
    if id !in prev && |prev| < MaxGamesPerTemplate {
      RemoveAbsent(prev, id);
      assert RemoveId(prev + [id], id) == prev by {
        RemoveAppend(prev, id);
      }
    } else if id in prev {
      var k :| 0 <= k < |prev| && prev[k] == id;
      RemoveUniqueAt(prev, k);
    }
  }

  lemma {:induction false} RemoveAppend(s: seq<string>, id: string)
    ensures RemoveId(s + [id], id) == RemoveId(s, id)
  {
    if s == [] {
    } else {
      assert (s + [id])[1..] == s[1..] + [id];
      RemoveAppend(s[1..], id);
    }
  }

  /** Applies the toggles of a sequence of clicks in order. */
  function ToggleAll(s: seq<string>, clicks: seq<string>): seq<string>
    decreases |clicks|
  {
    if clicks == [] then s else ToggleAll(Toggle(s, clicks[0]), clicks[1..])
  }

  /** Any sequence of clicks keeps the selection duplicate-free and at most three long. */
  lemma {:induction false} ToggleAllPreservesSelectionOk(s: seq<string>, clicks: seq<string>)
    requires SelectionOk(s)
    ensures SelectionOk(ToggleAll(s, clicks))
    decreases |clicks|
  {
    if clicks != [] {
      TogglePreservesSelectionOk(s, clicks[0]);
      ToggleAllPreservesSelectionOk(Toggle(s, clicks[0]), clicks[1..]);
    }
  }

  // ---------------------------------------------------------------------------
  // Result flags

  /** A result counts when it is non-empty and not the "-:-" placeholder. */
  predicate Played(result: string) {
    result != "" && result != "-:-"
  }

  /** Index `j` holds the first game with this id. */
  predicate FirstWithId(games: seq<Game>, id: string, j: int) {
    0 <= j < |games| && games[j].id == id && forall k :: 0 <= k < j ==> games[k].id != id
  }

  /** `games.find(g => g.id === id)`. */
  function FindGame(games: seq<Game>, id: string): (r: Option<Game>)
    ensures r.None? <==> forall j :: 0 <= j < |games| ==> games[j].id != id
    ensures r.Some? ==> exists j :: FirstWithId(games, id, j) && games[j] == r.value
  {
    if games == [] then None
    else if games[0].id == id then
      assert FirstWithId(games, id, 0);
      Some(games[0])
    else
      var r := FindGame(games[1..], id);
      if r.Some? then
        var j :| FirstWithId(games[1..], id, j) && games[1..][j] == r.value;
        assert FirstWithId(games, id, j + 1);
        r
      else
        r
  }

  /** The flags `handleContinue` computes: one per selected id, in selection
      order, true exactly when the first game with that id has a played result. */
  function HasResults(games: seq<Game>, ids: seq<string>): (r: seq<bool>)
    ensures |r| == |ids|
    ensures forall i :: 0 <= i < |ids| ==>
      (r[i] <==> exists j :: FirstWithId(games, ids[i], j) && Played(games[j].result))
  {
    seq(|ids|, i requires 0 <= i < |ids| =>
      var g := FindGame(games, ids[i]); g.Some? && Played(g.value.result))
  }

  lemma HasResultsExample()
    ensures var games := [Game("a", "2:1", "", "", "", ""), Game("b", "-:-", "", "", "", ""), Game("c", "", "", "", "", "")];
      HasResults(games, ["a", "b", "c"]) == [true, false, false]
  {
    var games := [Game("a", "2:1", "", "", "", ""), Game("b", "-:-", "", "", "", ""), Game("c", "", "", "", "", "")];
    assert FirstWithId(games, "a", 0);
    assert FirstWithId(games, "b", 1);
    assert FirstWithId(games, "c", 2);
  }

  // ---------------------------------------------------------------------------
  // Dates

  /** A calendar date as parsed from "DD.MM.YYYY". */
  datatype Date = Date(day: nat, month: nat, year: nat)

  predicate InRange(d: Date) {
    d.day < 100 && d.month < 100 && d.year < 10000
  }

  predicate IsDigit(c: char) { '0' <= c <= '9' }

  function Digit(c: char): nat
    requires IsDigit(c)
  {
    (c as int) - ('0' as int)
  }

  function DigitChar(n: nat): char
    requires n < 10
  {
    ('0' as int + n) as char
  }

  predicate WellFormedDate(s: string) {
    && |s| == 10 && s[2] == '.' && s[5] == '.'
    && IsDigit(s[0]) && IsDigit(s[1]) && IsDigit(s[3]) && IsDigit(s[4])
    && IsDigit(s[6]) && IsDigit(s[7]) && IsDigit(s[8]) && IsDigit(s[9])
  }

  /** `parseDate`, for dates in the "DD.MM.YYYY" form; anything else is unparseable. */
  function ParseDate(s: string): (r: Option<Date>)
    ensures r.Some? <==> WellFormedDate(s)
    ensures r.Some? ==> InRange(r.value)
  {
    if WellFormedDate(s) then
      Some(Date(Digit(s[0]) * 10 + Digit(s[1]),
                Digit(s[3]) * 10 + Digit(s[4]),
                ((Digit(s[6]) * 10 + Digit(s[7])) * 10 + Digit(s[8])) * 10 + Digit(s[9])))
    else None
  }

  /** The "DD.MM.YYYY" text of a date. */
  function FormatDate(d: Date): (s: string)
    requires InRange(d)
    ensures WellFormedDate(s)
  {
    var y := d.year;
    [DigitChar(d.day / 10), DigitChar(d.day % 10), '.',
     DigitChar(d.month / 10), DigitChar(d.month % 10), '.',
     DigitChar(y / 10 / 10 / 10), DigitChar(y / 10 / 10 % 10), DigitChar(y / 10 % 10), DigitChar(y % 10)]
  }

  lemma DigitRoundTrip(n: nat, c: char)
    ensures n < 10 ==> IsDigit(DigitChar(n)) && Digit(DigitChar(n)) == n
    ensures IsDigit(c) ==> Digit(c) < 10 && DigitChar(Digit(c)) == c
  {
  }

  /** Appending a decimal digit can be undone by `/ 10` and `% 10`. */
  lemma DivMod10(q: nat, r: nat)
    requires r < 10
    ensures (q * 10 + r) / 10 == q && (q * 10 + r) % 10 == r
  {
  }

  lemma ParseFormatRoundTrip(d: Date)
    requires InRange(d)
    ensures ParseDate(FormatDate(d)) == Some(d)
  {
    var y := d.year;
    assert y == ((y / 10 / 10 / 10 * 10 + y / 10 / 10 % 10) * 10 + y / 10 % 10) * 10 + y % 10;
    DigitRoundTrip(d.day / 10, ' ');
    DigitRoundTrip(d.day % 10, ' ');
    DigitRoundTrip(d.month / 10, ' ');
    DigitRoundTrip(d.month % 10, ' ');
    DigitRoundTrip(y / 10 / 10 / 10, ' ');
    DigitRoundTrip(y / 10 / 10 % 10, ' ');
    DigitRoundTrip(y / 10 % 10, ' ');
    DigitRoundTrip(y % 10, ' ');
  }

  lemma FormatParseRoundTrip(s: string)
    requires WellFormedDate(s)
    ensures FormatDate(ParseDate(s).value) == s
  {
    var d := ParseDate(s).value;
    forall i | i in {0, 1, 3, 4, 6, 7, 8, 9} ensures Digit(s[i]) < 10 && DigitChar(Digit(s[i])) == s[i] {
      DigitRoundTrip(0, s[i]);
    }
    DivMod10(Digit(s[0]), Digit(s[1]));
    DivMod10(Digit(s[3]), Digit(s[4]));
    var y2 := Digit(s[6]) * 10 + Digit(s[7]);
    var y3 := y2 * 10 + Digit(s[8]);
    DivMod10(y3, Digit(s[9]));
    DivMod10(y2, Digit(s[8]));
    DivMod10(Digit(s[6]), Digit(s[7]));
    assert FormatDate(d) == s;
  }

  /** The position of a date on the calendar: later dates have larger numbers. */
  function DayNumber(d: Date): int {
    d.year * 10000 + d.month * 100 + d.day
  }

  /** Calendar order: year, then month, then day. */
  predicate Before(a: Date, b: Date) {
    a.year < b.year || (a.year == b.year && (a.month < b.month || (a.month == b.month && a.day < b.day)))
  }

  lemma DayNumberOrdersCalendar(a: Date, b: Date)
    requires a.day < 100 && a.month < 100 && b.day < 100 && b.month < 100
    ensures DayNumber(a) < DayNumber(b) <==> Before(a, b)
    ensures DayNumber(a) == DayNumber(b) <==> a == b
  {
  }

  // ---------------------------------------------------------------------------
  // Past / today / future

  datatype Bucket = Past | Today | Future

  /** The bucket of a game, against today's date. An unparseable date compares
      neither smaller nor equal (NaN), so it lands in the future bucket. */
  function Classify(g: Game, today: Date): (r: Bucket)
    ensures ParseDate(g.date).None? ==> r == Future
    ensures today.day < 100 && today.month < 100 ==> (r == Today <==> ParseDate(g.date) == Some(today))
  {
    match ParseDate(g.date)
    case None => Future
    case Some(d) =>
      var b := if DayNumber(d) < DayNumber(today) then Past
               else if DayNumber(d) == DayNumber(today) then Today
               else Future;
      if today.day < 100 && today.month < 100 then DayNumberOrdersCalendar(d, today); b else b
  }

  /** The classification in calendar terms. */
  lemma ClassifyByCalendar(g: Game, today: Date)
    requires today.day < 100 && today.month < 100
    ensures Classify(g, today) == Past <==> ParseDate(g.date).Some? && Before(ParseDate(g.date).value, today)
    ensures Classify(g, today) == Today <==> ParseDate(g.date) == Some(today)
    ensures Classify(g, today) == Future <==> ParseDate(g.date).None? || Before(today, ParseDate(g.date).value)
  {
    if ParseDate(g.date).Some? {
      DayNumberOrdersCalendar(ParseDate(g.date).value, today);
      DayNumberOrdersCalendar(today, ParseDate(g.date).value);
    }
  }

  /** The games of one bucket, in fetch order (the `push` calls of the `forEach`). */
  function InBucket(data: seq<Game>, today: Date, b: Bucket): (r: seq<Game>)
    ensures forall g :: g in r <==> g in data && Classify(g, today) == b
  {
    Lists.KeyFilter(data, g => Classify(g, today), b)
  }

  /** Each fetched game lands in exactly one bucket: together the buckets are a
      permutation of the fetched list. */
  lemma BucketsPartition(data: seq<Game>, today: Date)
    ensures multiset(InBucket(data, today, Past)) + multiset(InBucket(data, today, Today))
          + multiset(InBucket(data, today, Future)) == multiset(data)
  {
    Lists.KeyFilterPartition3(data, g => Classify(g, today), Past, Today, Future);
  }

  /** The loop of `fetchGames` that pushes each game into its bucket. */
  method PartitionByDay(data: seq<Game>, today: Date) returns (past: seq<Game>, present: seq<Game>, future: seq<Game>)
    ensures past == InBucket(data, today, Past)
    ensures present == InBucket(data, today, Today)
    ensures future == InBucket(data, today, Future)
  {
    past, present, future := [], [], [];
    var i := 0;
    while i < |data|
      invariant 0 <= i <= |data|
      invariant past == InBucket(data[..i], today, Past)
      invariant present == InBucket(data[..i], today, Today)
      invariant future == InBucket(data[..i], today, Future)
    {
      var game := data[i];
      assert data[..i + 1] == data[..i] + [game];
      var key := g => Classify(g, today);
      Lists.KeyFilterSnoc(data[..i], game, key, Past);
      Lists.KeyFilterSnoc(data[..i], game, key, Today);
      Lists.KeyFilterSnoc(data[..i], game, key, Future);
      var b := Classify(game, today);
      if b == Past {
        past := past + [game];
      } else if b == Today {
        present := present + [game];
      } else {
        future := future + [game];
      }
      i := i + 1;
    }
    assert data[..i] == data;
  }

  /** The number the comparators subtract: the parsed date's day number
      (an unparseable date is given 0, see the README). */
  function SortKey(g: Game): int {
    match ParseDate(g.date)
    case Some(d) => DayNumber(d)
    case None => 0
  }

  /** `(a, b) => parseDate(a.date) - parseDate(b.date)`: earliest first. */
  predicate Ascending(a: Game, b: Game) { SortKey(a) <= SortKey(b) }

  /** `(a, b) => parseDate(b.date) - parseDate(a.date)`: latest first. */
  predicate Descending(a: Game, b: Game) { SortKey(b) <= SortKey(a) }

  lemma ComparatorsArePreorders()
    ensures Sorting.TotalPreorder(Ascending)
    ensures Sorting.TotalPreorder(Descending)
  {
  }

  /** The list `fetchGames` stores: past games latest first (only when past
      games are shown), then today's and the future games earliest first. */
  function Arrange(data: seq<Game>, today: Date, showPastGames: bool): (r: seq<Game>)
    ensures showPastGames ==> |r| == |data|
    ensures !showPastGames ==> |r| == |data| - |InBucket(data, today, Past)|
  {
    var bp, bt, bf := InBucket(data, today, Past), InBucket(data, today, Today), InBucket(data, today, Future);
    BucketsPartition(data, today);
    assert |bp| + |bt| + |bf| == |data| by {
      assert |multiset(bp) + multiset(bt) + multiset(bf)| == |multiset(data)|;
    }
    var past := Sorting.SortBy(InBucket(data, today, Past), Descending);
    var present := Sorting.SortBy(InBucket(data, today, Today), Ascending);
    var future := Sorting.SortBy(InBucket(data, today, Future), Ascending);
    if showPastGames then past + present + future else present + future
  }

  /** With past games shown the list is a permutation of the fetched games;
      without, it holds exactly the fetched games that are not past. */
  lemma {:induction false} ArrangeContents(data: seq<Game>, today: Date, showPastGames: bool)
    ensures showPastGames ==> multiset(Arrange(data, today, showPastGames)) == multiset(data)
    ensures !showPastGames ==> multiset(Arrange(data, today, showPastGames))
                                == multiset(data) - multiset(InBucket(data, today, Past))
  {
    var bp, bt, bf := InBucket(data, today, Past), InBucket(data, today, Today), InBucket(data, today, Future);
    assert multiset(bp) + multiset(bt) + multiset(bf) == multiset(data) by {
      BucketsPartition(data, today);
    }
    var p, t, f := Sorting.SortBy(bp, Descending), Sorting.SortBy(bt, Ascending), Sorting.SortBy(bf, Ascending);
    if showPastGames {
      assert Arrange(data, today, showPastGames) == p + t + f;
    } else {
      assert Arrange(data, today, showPastGames) == t + f;
    }
  }

  /** A game is shown exactly when it was fetched and is not past, or past
      games are shown. */
  lemma ArrangeMembers(data: seq<Game>, today: Date, showPastGames: bool)
    ensures forall g :: g in Arrange(data, today, showPastGames) <==>
              g in data && (showPastGames || Classify(g, today) != Past)
  {
    forall g ensures g in Arrange(data, today, showPastGames) <==>
                     g in data && (showPastGames || Classify(g, today) != Past) {
      ArrangeMember(data, today, showPastGames, g);
    }
  }

  lemma {:induction false} ArrangeMember(data: seq<Game>, today: Date, showPastGames: bool, g: Game)
    ensures g in Arrange(data, today, showPastGames) <==> g in data && (showPastGames || Classify(g, today) != Past)
  {
    var bp, bt, bf := InBucket(data, today, Past), InBucket(data, today, Today), InBucket(data, today, Future);
    var p, t, f := Sorting.SortBy(bp, Descending), Sorting.SortBy(bt, Ascending), Sorting.SortBy(bf, Ascending);
    Sorting.SortByMembers(bp, Descending, g);
    Sorting.SortByMembers(bt, Ascending, g);
    Sorting.SortByMembers(bf, Ascending, g);
    assert Arrange(data, today, showPastGames) == if showPastGames then p + t + f else t + f;
  }

  /** A rank that orders the buckets: past, then today, then future. */
  function BucketRank(b: Bucket): nat {
    match b
    case Past => 0
    case Today => 1
    case Future => 2
  }

  /** `a` may come before `b` in the shown list: buckets in the order past,
      today, future; past games latest first, the others earliest first. */
  predicate InListOrder(a: Game, b: Game, today: Date) {
    var ca, cb := Classify(a, today), Classify(b, today);
    && BucketRank(ca) <= BucketRank(cb)
    && (ca == cb == Past ==> SortKey(a) >= SortKey(b))
    && (ca == cb && ca != Past ==> SortKey(a) <= SortKey(b))
  }

  /** `InListOrder` as a comparator value, for the pairwise statements. */
  function ListOrder(today: Date): (Game, Game) -> bool {
    (x, y) => InListOrder(x, y, today)
  }

  /** A sorted bucket is in list order. */
  lemma SortedBucketInOrder(bucket: seq<Game>, today: Date, b: Bucket)
    requires forall g :: g in bucket ==> Classify(g, today) == b
    ensures var le := if b == Past then Descending else Ascending;
      Lists.Pairwise(Sorting.SortBy(bucket, le), ListOrder(today))
    ensures var le := if b == Past then Descending else Ascending;
      forall g :: g in Sorting.SortBy(bucket, le) ==> Classify(g, today) == b
  {
    var le := if b == Past then Descending else Ascending;
    ComparatorsArePreorders();
    Sorting.SortBySorted(bucket, le);
    SortedBucketClass(bucket, today, b, le);
  }

  /** Games of an earlier bucket come before games of a later one. */
  lemma CrossBucketsInOrder(a: seq<Game>, b: seq<Game>, today: Date, ba: Bucket)
    requires forall x :: x in a ==> Classify(x, today) == ba
    requires forall y :: y in b ==> BucketRank(ba) < BucketRank(Classify(y, today))
    ensures forall x, y :: x in a && y in b ==> ListOrder(today)(x, y)
  {
  }

  /** Past, today and future lists, each in list order, concatenate in list order. */
  lemma ConcatBucketsInOrder(p: seq<Game>, t: seq<Game>, f: seq<Game>, today: Date, showPastGames: bool)
    requires forall x :: x in p ==> Classify(x, today) == Past
    requires forall x :: x in t ==> Classify(x, today) == Today
    requires forall x :: x in f ==> Classify(x, today) == Future
    requires Lists.Pairwise(p, ListOrder(today))
    requires Lists.Pairwise(t, ListOrder(today))
    requires Lists.Pairwise(f, ListOrder(today))
    ensures Lists.Pairwise(if showPastGames then p + t + f else t + f, ListOrder(today))
  {
    CrossBucketsInOrder(t, f, today, Today);
    Lists.ConcatPairwise(t, f, ListOrder(today));
    if showPastGames {
      CrossBucketsInOrder(p, t + f, today, Past);
      Lists.ConcatPairwise(p, t + f, ListOrder(today));
      assert p + t + f == p + (t + f);
    }
  }

  /** The shown list is in list order. */
  lemma ArrangeOrdered(data: seq<Game>, today: Date, showPastGames: bool)
    ensures Lists.Pairwise(Arrange(data, today, showPastGames), ListOrder(today))
  {
    SortedBucketInOrder(InBucket(data, today, Past), today, Past);
    SortedBucketInOrder(InBucket(data, today, Today), today, Today);
    SortedBucketInOrder(InBucket(data, today, Future), today, Future);
    ConcatBucketsInOrder(Sorting.SortBy(InBucket(data, today, Past), Descending),
                         Sorting.SortBy(InBucket(data, today, Today), Ascending),
                         Sorting.SortBy(InBucket(data, today, Future), Ascending), today, showPastGames);
  }

  /** A sorted bucket holds only games of that bucket. */
  lemma SortedBucketClass(bucket: seq<Game>, today: Date, b: Bucket, le: (Game, Game) -> bool)
    requires forall g :: g in bucket ==> Classify(g, today) == b
    ensures forall g :: g in Sorting.SortBy(bucket, le) ==> Classify(g, today) == b
  {
    var s := Sorting.SortBy(bucket, le);
    forall g | g in s ensures Classify(g, today) == b {
      assert g in multiset(s);
      assert g in multiset(bucket);
    }
  }

  /** All of today's games share one date, so sorting them keeps fetch order. */
  lemma TodaySortKeepsFetchOrder(data: seq<Game>, today: Date)
    ensures Sorting.SortBy(InBucket(data, today, Today), Ascending) == InBucket(data, today, Today)
  {
    var t := InBucket(data, today, Today);
    forall g | g in t ensures SortKey(g) == DayNumber(today) {
      assert Classify(g, today) == Today;
    }
    ComparatorsArePreorders();
    Sorting.SortAllEqualIsIdentity(t, Ascending);
  }

  // ---------------------------------------------------------------------------
  // Grouping by date

  /** The distinct dates of `games`, in order of first appearance: the keys of
      the `groupedGames` record in insertion order. */
  function DatesInOrder(games: seq<Game>): (ds: seq<string>)
    ensures NoDuplicates(ds)
  {
    if games == [] then []
    else
      var ds := DatesInOrder(games[..|games| - 1]);
      var date := games[|games| - 1].date;
      if date in ds then ds else ds + [date]
  }

  /** The key order lists exactly the dates of the games. */
  lemma {:induction false} DatesInOrderCovers(games: seq<Game>)
    ensures forall d :: d in DatesInOrder(games) <==> exists g :: g in games && g.date == d
  {
    if games != [] {
      var init, last := games[..|games| - 1], games[|games| - 1];
      assert games == init + [last];
      DatesInOrderCovers(init);
    }
  }

  /** The games of one date, in list order. */
  function GamesOn(games: seq<Game>, date: string): (r: seq<Game>)
    ensures forall g :: g in r <==> g in games && g.date == date
    ensures forall g :: multiset(r)[g] == if g.date == date then multiset(games)[g] else 0
  {
    Lists.KeyFilterCounts(games, (g: Game) => g.date, date);
    Lists.KeyFilter(games, (g: Game) => g.date, date)
  }

  /** One more game: its date is appended to the key order when it is new. */
  lemma DatesStep(games: seq<Game>, g: Game)
    ensures DatesInOrder(games + [g]) == (if g.date in DatesInOrder(games) then DatesInOrder(games)
                                          else DatesInOrder(games) + [g.date])
  {
    assert (games + [g])[..|games|] == games;
  }

  /** One more game: only its date's group grows, by that game. */
  lemma GamesOnStep(games: seq<Game>, g: Game, d: string)
    ensures GamesOn(games + [g], d) == GamesOn(games, d) + (if g.date == d then [g] else [])
    ensures d !in DatesInOrder(games) ==> GamesOn(games, d) == []
  {
    Lists.KeyFilterSnoc(games, g, (x: Game) => x.date, d);
    DatesInOrderCovers(games);
    var r := GamesOn(games, d);
    if r != [] {
      assert r[0] in games && r[0].date == d;
    }
  }

  /** `groups` holds, under each of its dates, the games of that date in
      `prefix`, and never an empty group. */
  ghost predicate GroupsOf(prefix: seq<Game>, groups: map<string, seq<Game>>) {
    forall d :: d in groups ==> groups[d] == GamesOn(prefix, d) && |groups[d]| > 0
  }

  /** The record after one `reduce` step: the game pushed into its date's
      group, which is created when missing. */
  function PushGame(groups: map<string, seq<Game>>, g: Game): map<string, seq<Game>> {
    groups[g.date := (if g.date in groups then groups[g.date] else []) + [g]]
  }

  /** One `reduce` step keeps the record's keys and key order in step. */
  lemma PushGameKeys(prefix: seq<Game>, g: Game, groups: map<string, seq<Game>>)
    requires forall d :: d in groups <==> d in DatesInOrder(prefix)
    ensures forall d :: d in PushGame(groups, g) <==> d in DatesInOrder(prefix + [g])
  {
    DatesStep(prefix, g);
  }

  /** One `reduce` step keeps every group equal to the games of its date. */
  lemma {:induction false} PushGameGroups(prefix: seq<Game>, g: Game, groups: map<string, seq<Game>>)
    requires forall d :: d in groups <==> d in DatesInOrder(prefix)
    requires GroupsOf(prefix, groups)
    ensures GroupsOf(prefix + [g], PushGame(groups, g))
  {
    var groups' := PushGame(groups, g);
    forall d | d in groups' ensures groups'[d] == GamesOn(prefix + [g], d) && |groups'[d]| > 0 {
      GamesOnStep(prefix, g, d);
    }
  }

  /** The `reduce` that builds `groupedGames`, with its key order. */
  method GroupByDate(games: seq<Game>) returns (dates: seq<string>, groups: map<string, seq<Game>>)
    ensures dates == DatesInOrder(games)
    ensures forall d :: d in groups <==> d in dates
    ensures forall d :: d in groups ==> groups[d] == GamesOn(games, d) && |groups[d]| > 0
  {
    dates, groups := [], map[];
    var i := 0;
    while i < |games|
      invariant 0 <= i <= |games|
      invariant dates == DatesInOrder(games[..i])
      invariant forall d :: d in groups <==> d in dates
      invariant GroupsOf(games[..i], groups)
    {
      var game := games[i];
      ghost var prefix := games[..i];
      assert games[..i + 1] == prefix + [game];
      DatesStep(prefix, game);
      PushGameKeys(prefix, game, groups);
      PushGameGroups(prefix, game, groups);
      ghost var before := groups;
      var group := if game.date in groups then groups[game.date] else [];
      if game.date !in groups {
        dates := dates + [game.date];
      }
      groups := groups[game.date := group + [game]];
      assert groups == PushGame(before, game);
      assert GroupsOf(games[..i + 1], groups);
      i := i + 1;
    }
    assert games[..i] == games;
  }

  // ---------------------------------------------------------------------------
  // The component

  /** What "continue" hands to the wizard. */
  datatype Handover = Handover(gameIds: seq<string>, hasResults: seq<bool>, games: seq<Game>)

  class GameList {
    var games: seq<Game>
    var loading: bool
    var selectedGameIds: seq<string>
    var showPastGames: bool

    /** The selection holds at most three distinct ids. */
    predicate Valid()
      reads this
    {
      SelectionOk(selectedGameIds)
    }

    constructor ()
      ensures Valid()
      ensures games == [] && loading && selectedGameIds == [] && !showPastGames
    {
      games, loading, selectedGameIds, showPastGames := [], true, [], false;
    }

    method HandleGameToggle(gameId: string)
      requires Valid()
      modifies this
      ensures Valid()
      ensures selectedGameIds == Toggle(old(selectedGameIds), gameId)
      ensures games == old(games) && loading == old(loading) && showPastGames == old(showPastGames)
    {
      TogglePreservesSelectionOk(selectedGameIds, gameId);
      selectedGameIds := Toggle(selectedGameIds, gameId);
    }

    /** The "show past games" checkbox; the fetch it triggers is `FetchGames`. */
    method SetShowPastGames(checked: bool)
      requires Valid()
      modifies this
      ensures Valid()
      ensures showPastGames == checked
      ensures games == old(games) && loading == old(loading) && selectedGameIds == old(selectedGameIds)
    {
      showPastGames := checked;
    }

    /** `handleContinue`: nothing with an empty selection, otherwise the
        selection, its result flags and the fetched games. */
    method HandleContinue() returns (r: Option<Handover>)
      requires Valid()
      ensures r.None? <==> selectedGameIds == []
      ensures r.Some? ==> 0 < |r.value.gameIds| <= MaxGamesPerTemplate && NoDuplicates(r.value.gameIds)
      ensures r.Some? ==> r.value.gameIds == selectedGameIds && r.value.games == games
      ensures r.Some? ==> |r.value.hasResults| == |selectedGameIds|
      ensures r.Some? ==> forall i :: 0 <= i < |selectedGameIds| ==>
        (r.value.hasResults[i] <==> exists j :: FirstWithId(games, selectedGameIds[i], j) && Played(games[j].result))
    {
      if |selectedGameIds| == 0 {
        return None;
      }
      var flags := HasResults(games, selectedGameIds);
      r := Some(Handover(selectedGameIds, flags, games));
    }

    /** `fetchGames`, with the response and today's date as inputs. A failed
        fetch leaves the list as it was; loading ends false either way. */
    method FetchGames(response: FetchResult<Game>, today: Date)
      requires Valid()
      modifies this
      ensures Valid() && !loading
      ensures response.Failed? ==> games == old(games)
      ensures response.Loaded? ==> games == Arrange(LoadedList(response.payload), today, showPastGames)
      ensures selectedGameIds == old(selectedGameIds) && showPastGames == old(showPastGames)
    {
      loading := true;
      if response.Loaded? {
        var data := LoadedList(response.payload);
        var past, present, future := PartitionByDay(data, today);
        past := Sorting.SortBy(past, Descending);
        present := Sorting.SortBy(present, Ascending);
        future := Sorting.SortBy(future, Ascending);
        games := if showPastGames then past + present + future else present + future;
      }
      loading := false;
    }
  }
}
