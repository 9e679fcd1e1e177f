/**
 * The static fixture catalog of the bet analyser: per league, the teams offered for
 * selection and, for some of them, their indicators (noel.py, get_mock_api_data).
 */
module SoccerData {

  /** The indicators of one team: ratings, the last four results and the unavailable players. */
  datatype TeamRecord = TeamRecord(
    attack: real,
    defence: real,
    lastFour: seq<string>,
    unavailable: seq<string>)

  /** What one league offers: team names for the dropdowns and indicator records by name. */
  datatype LeagueData = LeagueData(teams: seq<string>, data: map<string, TeamRecord>)

  /** The default returned for a league that is not in the catalog. */
  const NoLeagueData := LeagueData([], map[])

  /** The leagues whose catalog entry holds at least one team. */
  const StockedLeagues := {"Premier League", "La Liga", "Premier Soccer League (South Africa)"}

  /** The leagues that are in the catalog but hold no teams yet. */
  const EmptyLeagues := {"Serie A", "UEFA Champions League", "UEFA Nations League", "AFCON", "CAF Champions League"}

  predicate IsOutcomeSymbol(s: string)
  {
    s == "W" || s == "D" || s == "L"
  }

  /**
   * Every team that has a record is also offered in the team list, and every record
   * carries a four-symbol form over W, D and L.
   */
  ghost predicate Consistent(d: LeagueData)
  {
    && (forall t :: t in d.data ==> t in d.teams)
    && (forall t :: t in d.data ==> |d.data[t].lastFour| == 4)
    && (forall t, k :: t in d.data && 0 <= k < |d.data[t].lastFour| ==> IsOutcomeSymbol(d.data[t].lastFour[k]))
  }

  /**
   * Dictionary lookup with an empty default: a league is answered with data exactly when
   * it is one of the stocked ones, and every answer is consistent.
   */
  function GetMockApiData(league: string): (r: LeagueData)
    ensures league !in StockedLeagues <==> r == NoLeagueData
    ensures Consistent(r)
  {
    if league == "Premier League" then PremierLeague()
    else if league == "La Liga" then LaLiga()
    else if league == "Premier Soccer League (South Africa)" then SouthAfricanLeague()
    else if league in EmptyLeagues then LeagueData([], map[])
    else NoLeagueData
  }

  /** Ten teams are offered; only Manchester City and Manchester United have records. */
  function PremierLeague(): (r: LeagueData)
    ensures Consistent(r) && |r.teams| == 10
    ensures r.data.Keys == {"Manchester City", "Manchester United"}
  {
    LeagueData(
      ["Manchester City", "Arsenal", "Liverpool", "Aston Villa", "Tottenham Hotspur", "Chelsea",
       "Newcastle United", "Manchester United", "West Ham United", "Crystal Palace"],
      map[
        "Manchester City" := TeamRecord(2.8, 0.8, ["W", "W", "W", "D"],
                                        ["Ederson (Injury)", "Kevin De Bruyne (Suspended)"]),
        "Manchester United" := TeamRecord(1.5, 1.4, ["L", "D", "W", "L"],
                                          ["Lisandro Martinez (Injury)"])])
  }

  /** Six teams are offered; only Real Madrid and Barcelona have records. */
  function LaLiga(): (r: LeagueData)
    ensures Consistent(r) && |r.teams| == 6
    ensures r.data.Keys == {"Real Madrid", "Barcelona"}
  {
    LeagueData(
      ["Real Madrid", "Barcelona", "Girona", "Atletico Madrid", "Athletic Club", "Real Sociedad"],
      map[
        "Real Madrid" := TeamRecord(2.5, 0.7, ["W", "W", "D", "W"], ["Thibaut Courtois (Injury)"]),
        "Barcelona" := TeamRecord(2.2, 1.1, ["W", "L", "W", "W"], ["Gavi (Injury)", "Pedri (Doubtful)"])])
  }

  /** Four teams are offered; SuperSport United has no record. */
  function SouthAfricanLeague(): (r: LeagueData)
    ensures Consistent(r) && |r.teams| == 4
    ensures r.data.Keys == {"Mamelodi Sundowns", "Orlando Pirates", "Kaizer Chiefs"}
  {
    LeagueData(
      ["Mamelodi Sundowns", "Orlando Pirates", "Kaizer Chiefs", "SuperSport United"],
      map[
        "Mamelodi Sundowns" := TeamRecord(2.1, 0.5, ["W", "D", "W", "W"], []),
        "Orlando Pirates" := TeamRecord(1.6, 0.9, ["W", "L", "D", "W"], ["Thembinkosi Lorch (Suspended)"]),
        "Kaizer Chiefs" := TeamRecord(1.1, 1.2, ["D", "L", "L", "W"], ["Itumeleng Khune (Injury)"])])
  }
}
