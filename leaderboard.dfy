// The leaderboard pages: a cache-aside read of one page of the global or
// the per-country ranking. The ranking query itself (filter, order,
// offset, limit and count) belongs to the store; its rows and its count
// are passed in.

module Leaderboard {
  import opened Common
  import opened Models

  /** The cache keys `leaderboard:global:page:{page}:size:{size}` and
      `leaderboard:country:{country}:page:{page}:size:{size}`. */
  datatype CacheKey =
    | GlobalKey(page: int, pageSize: int)
    | CountryKey(country: string, page: int, pageSize: int)

  /** One row of a page. */
  datatype LeaderboardEntry = LeaderboardEntry(
    rank: int,
    username: string,
    totalScore: real,
    totalGames: nat,
    winRate: real,
    country: Option<string>)

  /** The dict both services return; `country` is only present on the
      per-country page. */
  datatype LeaderboardPage = LeaderboardPage(
    entries: seq<LeaderboardEntry>,
    country: Option<string>,
    totalEntries: int,
    page: int,
    pageSize: int)

  /** The first row shown on a page. */
  function Offset(page: int, pageSize: int): int
  {
    (page - 1) * pageSize
  }

  /** The page's rows: the i-th fetched user ranked `offset + i + 1`, with
      its win rate, and the country it is listed under (its own on the
      global page, the requested one on a country page). */
  function RankEntries(users: seq<User>, offset: int, country: Option<string>): (r: seq<LeaderboardEntry>)
    ensures |r| == |users|
    ensures forall i :: 0 <= i < |users| ==>
      && r[i].rank == offset + i + 1
      && r[i].username == users[i].username
      && r[i].totalScore == users[i].totalScore
      && r[i].totalGames == users[i].totalGames
      && r[i].winRate == Ratio(users[i].totalWins, users[i].totalGames)
      && r[i].country == (if country.Some? then country else users[i].country)
  {
    seq(|users|, i requires 0 <= i < |users| =>
      LeaderboardEntry(offset + i + 1, users[i].username, users[i].totalScore, users[i].totalGames,
                       Ratio(users[i].totalWins, users[i].totalGames),
                       if country.Some? then country else users[i].country))
  }

  /** Two different pages of the same size rank disjoint ranges. */
  lemma PagesDoNotOverlap(a: seq<User>, b: seq<User>, p: int, q: int, pageSize: int, i: nat, j: nat)
    requires p < q && pageSize > 0 && |a| <= pageSize
    requires i < |a| && j < |b|
    ensures RankEntries(a, Offset(p, pageSize), None)[i].rank < RankEntries(b, Offset(q, pageSize), None)[j].rank
  {
    assert (q - 1) * pageSize >= (p - 1) * pageSize + pageSize by {
      assert (q - 1) * pageSize - (p - 1) * pageSize == (q - p) * pageSize;
      assert (q - p) * pageSize >= pageSize;
    }
  }

  /** The page a miss builds from the fetched rows and count. */
  function BuildPage(key: CacheKey, users: seq<User>, totalEntries: int): (r: LeaderboardPage)
    ensures r.page == key.page && r.pageSize == key.pageSize && r.totalEntries == totalEntries
    ensures r.country == (if key.CountryKey? then Some(key.country) else None)
    ensures r.entries == RankEntries(users, Offset(key.page, key.pageSize), r.country)
  {
    var country := if key.CountryKey? then Some(key.country) else None;
    LeaderboardPage(RankEntries(users, Offset(key.page, key.pageSize), country),
                    country, totalEntries, key.page, key.pageSize)
  }

  /** Every row of a country page carries the requested country. */
  lemma CountryPageEntries(country: string, page: int, pageSize: int, users: seq<User>, totalEntries: int)
    ensures var r := BuildPage(CountryKey(country, page, pageSize), users, totalEntries);
      && r.country == Some(country)
      && forall e :: e in r.entries ==> e.country == Some(country)
  {
    var r := BuildPage(CountryKey(country, page, pageSize), users, totalEntries);
    forall e | e in r.entries
      ensures e.country == Some(country)
    {
      var i :| 0 <= i < |r.entries| && r.entries[i] == e;
    }
  }

  /** The leaderboard keys in Redis. */
  class LeaderboardCache {
    var stored: map<CacheKey, LeaderboardPage>

    constructor ()
      ensures stored == map[]
    {
      stored := map[];
    }

    /** The cache-aside read shared by both services: a hit returns the
        stored page as it is and writes nothing; a miss builds the page
        from the fetched rows and stores exactly what it returns. */
    method Lookup(key: CacheKey, users: seq<User>, totalEntries: int) returns (r: LeaderboardPage)
      modifies this
      ensures key in old(stored) ==> r == old(stored[key]) && stored == old(stored)
      ensures key !in old(stored) ==> r == BuildPage(key, users, totalEntries) && stored == old(stored)[key := r]
      ensures key in stored && stored[key] == r
    {
      if key in stored {
        return stored[key];
      }
      r := BuildPage(key, users, totalEntries);
      stored := stored[key := r];
    }

    /** `get_global_leaderboard`. */
    method GetGlobalLeaderboard(page: int, pageSize: int, users: seq<User>, totalEntries: int) returns (r: LeaderboardPage)
      modifies this
      ensures GlobalKey(page, pageSize) in old(stored) ==> r == old(stored[GlobalKey(page, pageSize)]) && stored == old(stored)
      ensures GlobalKey(page, pageSize) !in old(stored) ==>
        && r.country.None? && r.page == page && r.pageSize == pageSize && r.totalEntries == totalEntries
        && r.entries == RankEntries(users, Offset(page, pageSize), None)
        && stored == old(stored)[GlobalKey(page, pageSize) := r]
    {
      r := Lookup(GlobalKey(page, pageSize), users, totalEntries);
    }

    /** `get_location_leaderboard`. */
    method GetLocationLeaderboard(country: string, page: int, pageSize: int, users: seq<User>, totalEntries: int)
      returns (r: LeaderboardPage)
      modifies this
      ensures CountryKey(country, page, pageSize) in old(stored) ==>
        r == old(stored[CountryKey(country, page, pageSize)]) && stored == old(stored)
      ensures CountryKey(country, page, pageSize) !in old(stored) ==>
        && r.country == Some(country) && r.page == page && r.pageSize == pageSize && r.totalEntries == totalEntries
        && r.entries == RankEntries(users, Offset(page, pageSize), Some(country))
        && stored == old(stored)[CountryKey(country, page, pageSize) := r]
    {
      r := Lookup(CountryKey(country, page, pageSize), users, totalEntries);
    }
  }
}
