/**
 * The leaderboard: active users who are not administrators, scored by the
 * applause they received, highest first, the first ten.
 */
module Leaderboard {
  import opened Seqs
  import opened Types
  import opened LevelUtils

  /** A user row with the `points` property the page adds to it. */
  datatype LeaderboardEntry = LeaderboardEntry(user: User, points: int)

  /** Who may appear: `rol !== 'admin' && estado === 'activo'`. */
  predicate Eligible(u: User)
  {
    u.rol != Admin && u.estado == Activo
  }

  /** The user's row: gross points of the applause received; the carried-over points do not count. */
  function EntryFor(applause: seq<Applause>, u: User): LeaderboardEntry
  {
    LeaderboardEntry(u, CalculateGrossPoints(CountBy(applause, ReceivedBy(u.usuarioId))))
  }

  function EntriesOf(applause: seq<Applause>, eligible: seq<User>): seq<LeaderboardEntry>
  {
    MapSeq(eligible, (u: User) => EntryFor(applause, u))
  }

  /** The sort key of `(a, b) => b.points - a.points`: ascending by minus the points. */
  function NegPoints(e: LeaderboardEntry): int
  {
    -e.points
  }

  /** Every eligible user's row, highest points first (ties keep the users' order). */
  function Ranked(users: seq<User>, applause: seq<Applause>): seq<LeaderboardEntry>
  {
    SortBy(EntriesOf(applause, Filter(users, Eligible)), NegPoints)
  }

  /**
   * `leaderboardData`: some of the eligible users' rows (each at most as often as
   * the user list holds that user), ten of them or all when there are fewer,
   * highest points first.
   */
  function LeaderboardData(users: seq<User>, applause: seq<Applause>): (board: seq<LeaderboardEntry>)
    ensures |board| <= 10
    ensures forall i :: 0 <= i < |board| ==>
      Eligible(board[i].user) && board[i].user in users
      && board[i].points == 100 * CountBy(applause, ReceivedBy(board[i].user.usuarioId))
    ensures forall i, j :: 0 <= i < j < |board| ==> board[i].points >= board[j].points
    ensures multiset(board) <= multiset(EntriesOf(applause, Filter(users, Eligible)))
    ensures |board| == if |Filter(users, Eligible)| < 10 then |Filter(users, Eligible)| else 10
  {
    BoardRows(users, applause);
    BoardIsPrefix(users, applause);
    Take(Ranked(users, applause), 10)
  }

  /** The board's rows are ranked rows, so they are eligible users' rows, highest points first. */
  lemma BoardRows(users: seq<User>, applause: seq<Applause>)
    ensures var board := Take(Ranked(users, applause), 10);
      (forall i :: 0 <= i < |board| ==>
        Eligible(board[i].user) && board[i].user in users
        && board[i].points == 100 * CountBy(applause, ReceivedBy(board[i].user.usuarioId)))
      && forall i, j :: 0 <= i < j < |board| ==> board[i].points >= board[j].points
  {
    var ranked := Ranked(users, applause);
    var board := Take(ranked, 10);
    RankedEntries(users, applause);
    forall i, j | 0 <= i < j < |board|
      ensures board[i].points >= board[j].points
    {
      assert board[i] == ranked[i] && board[j] == ranked[j];
      assert NegPoints(ranked[i]) <= NegPoints(ranked[j]);
    }
    forall i | 0 <= i < |board|
      ensures board[i] == ranked[i]
    {
    }
  }

  /** The board is the first ten of a reordering of the eligible users' rows. */
  lemma BoardIsPrefix(users: seq<User>, applause: seq<Applause>)
    ensures multiset(Take(Ranked(users, applause), 10)) <= multiset(EntriesOf(applause, Filter(users, Eligible)))
    ensures |Take(Ranked(users, applause), 10)| == if |Filter(users, Eligible)| < 10 then |Filter(users, Eligible)| else 10
  {
    var entries := EntriesOf(applause, Filter(users, Eligible));
    var ranked := Ranked(users, applause);
    assert multiset(ranked) == multiset(entries);
    TakeOfPermutation(ranked, entries, 10);
  }

  /** Every ranked row belongs to an eligible user and carries that user's gross points. */
  lemma RankedEntries(users: seq<User>, applause: seq<Applause>)
    ensures var ranked := Ranked(users, applause);
      forall i :: 0 <= i < |ranked| ==>
        Eligible(ranked[i].user) && ranked[i].user in users
        && ranked[i].points == 100 * CountBy(applause, ReceivedBy(ranked[i].user.usuarioId))
  {
    var ranked := Ranked(users, applause);
    var eligible := Filter(users, Eligible);
    var entries := EntriesOf(applause, eligible);
    FilterByMembership(users, Eligible, true);
    forall i | 0 <= i < |ranked|
      ensures Eligible(ranked[i].user) && ranked[i].user in users
      ensures ranked[i].points == 100 * CountBy(applause, ReceivedBy(ranked[i].user.usuarioId))
    {
      assert ranked[i] in multiset(entries);
      var k :| 0 <= k < |entries| && entries[k] == ranked[i];
      assert eligible[k] in eligible;
    }
  }

  /**
   * Nobody who is left out beats a listed user: an eligible user either has a
   * row on the board or has at most the points of every row on it.
   */
  lemma LeftOutScoreNoHigher(users: seq<User>, applause: seq<Applause>, u: User)
    requires u in users && Eligible(u)
    ensures var board := LeaderboardData(users, applause);
      EntryFor(applause, u) in board
      || forall i :: 0 <= i < |board| ==> EntryFor(applause, u).points <= board[i].points
  {
    var ranked := Ranked(users, applause);
    EligibleEntryRanked(users, applause, u);
    LeftOutOfPrefix(ranked, NegPoints, 10, EntryFor(applause, u));
  }

  lemma EligibleEntryRanked(users: seq<User>, applause: seq<Applause>, u: User)
    requires u in users && Eligible(u)
    ensures EntryFor(applause, u) in Ranked(users, applause)
  {
    var eligible := Filter(users, Eligible);
    FilterByMembership(users, Eligible, true);
    var entries := EntriesOf(applause, eligible);
    var k :| 0 <= k < |eligible| && eligible[k] == u;
    assert entries[k] == EntryFor(applause, u);
    assert EntryFor(applause, u) in multiset(Ranked(users, applause));
  }

  /** With at most ten eligible users, every one of them has a row. */
  lemma SmallTeamAllListed(users: seq<User>, applause: seq<Applause>)
    requires |Filter(users, Eligible)| <= 10
    ensures multiset(LeaderboardData(users, applause)) == multiset(EntriesOf(applause, Filter(users, Eligible)))
  {
  }
}
