/**
 * The analysis session and its history ledger (noel.py, SoccerAnalyserApp): input
 * validation and record creation of run_analysis, the newest-first prepend of
 * save_to_history, the "missing file means empty" rule of load_history and the
 * in-place amendment of add_actual_result.
 */
module History {
  import opened Wrappers
  import opened SoccerData
  import opened Estimator

  /** One prediction as stored in the history file. */
  datatype Record = Record(
    date: string,
    league: string,
    matchLabel: string,
    bet: string,
    prediction: real,
    actualResult: string)

  /** Why an analysis stops without a result. */
  datatype AnalysisError = IncompleteInput | SameTeam | TeamDataMissing | FormulaDividesByZero

  /** Why an amendment is refused. */
  datatype AmendError = NoRowSelected | NoResultText

  /** The sentinel result of a fresh record. */
  const Pending := "Pending"
  /** The hint text the result entry box starts with. */
  const EntryPlaceholder := "e.g., Home Win"

  /**
   * The computation of run_analysis for the current selection: every field must be
   * filled, the teams must differ and both must have catalog records. A valid
   * selection then yields the clamped formula value of the adjusted records, a
   * percentage in [0, 100], or an error when the formula would divide by zero.
   */
  function Analyze(league: string, home: string, away: string, bet: string): (r: Result<real, AnalysisError>)
    ensures league == "" || home == "" || away == "" || bet == "" ==> r == Failure(IncompleteInput)
    ensures league != "" && home != "" && away != "" && bet != "" && home == away ==> r == Failure(SameTeam)
    ensures league != "" && home != "" && away != "" && bet != "" && home != away
            && (home !in GetMockApiData(league).data || away !in GetMockApiData(league).data)
            ==> r == Failure(TeamDataMissing)
    ensures r.Success? ==> 0.0 <= r.value <= 100.0
    ensures r.Success? ==> league in StockedLeagues
    ensures r.Failure? && r.error == FormulaDividesByZero ==>
      DividesByZero(bet, Adjust(GetMockApiData(league).data[home], GetMockApiData(league).data[away]))
    ensures league != "" && home != "" && away != "" && bet != "" && home != away
            && home in GetMockApiData(league).data && away in GetMockApiData(league).data ==>
      var s := Adjust(GetMockApiData(league).data[home], GetMockApiData(league).data[away]);
      && (r.Success? <==> !DividesByZero(bet, s))
      && (DividesByZero(bet, s) ==> r == Failure(FormulaDividesByZero))
      && (r.Success? ==> r.value == FinalPercent(Probability(bet, s).value))
  {
    if league == "" || home == "" || away == "" || bet == "" then
      Failure(IncompleteInput)
    else if home == away then
      Failure(SameTeam)
    else
      var catalog := GetMockApiData(league).data;
      if home !in catalog || away !in catalog then
        Failure(TeamDataMissing)
      else
        match Percent(catalog[home], catalog[away], bet)
        case Success(p) => Success(p)
        case Failure(_) => Failure(FormulaDividesByZero)
  }

  const CityRecord := TeamRecord(2.8, 0.8, ["W", "W", "W", "D"], ["Ederson (Injury)", "Kevin De Bruyne (Suspended)"])
  const UnitedRecord := TeamRecord(1.5, 1.4, ["L", "D", "W", "L"], ["Lisandro Martinez (Injury)"])

  lemma CityUnitedRecords()
    ensures GetMockApiData("Premier League").data["Manchester City"] == CityRecord
    ensures GetMockApiData("Premier League").data["Manchester United"] == UnitedRecord
  {
  }

  /** The adjusted strengths of Manchester City at home to Manchester United. */
  lemma CityUnitedStrength()
    ensures Adjust(CityRecord, UnitedRecord) == Strength(2.408, 1.31625, 0.8, 1.4)
  {
    assert FormSum(CityRecord.lastFour) == 4.3;
    assert FormSum(UnitedRecord.lastFour) == 3.9;
  }

  /**
   * Manchester City at home to Manchester United, 3-way home win: shares 1.72 and
   * 1.6453125, and since the draw floor fires the home chance is 0.85 * 1.72 / 3.3653125,
   * about 43.4%.
   */
  lemma CityUnitedHomeWin()
    ensures Analyze("Premier League", "Manchester City", "Manchester United", HomeWinBet)
            == Success(146.2 / 3.3653125)
  {
    CityUnitedRecords();
    CityUnitedPercent();
  }

  lemma CityUnitedPercent()
    ensures Percent(CityRecord, UnitedRecord, HomeWinBet) == Success(146.2 / 3.3653125)
  {
    CityUnitedStrength();
    var s := Strength(2.408, 1.31625, 0.8, 1.4);
    assert HomeShare(s) == 1.72 && AwayShare(s) == 1.6453125;
    ThreeWayLabels(s);
    assert ThreeWayChances(s).home == 0.85 * 1.72 / 3.3653125 by {
      DrawFloorAlwaysFires(s);
    }
  }

  /**
   * Manchester City at home to Manchester United, Over 3.0: expected goals are
   * 4.096675, and as written the Over bet reports one minus a fifth of that, 18.0665%.
   */
  lemma CityUnitedOver()
    ensures Analyze("Premier League", "Manchester City", "Manchester United", OverBet) == Success(18.0665)
  {
    CityUnitedRecords();
    CityUnitedStrength();
    var s := Strength(2.408, 1.31625, 0.8, 1.4);
    assert ExpectedGoals(s) == 4.096675;
    OverUnderLabels(s);
  }

  /** The history as loaded at start-up: a missing file is an empty history. */
  function LoadHistory(stored: Option<seq<Record>>): (h: seq<Record>)
    ensures stored.None? ==> h == []
    ensures stored.Some? ==> h == stored.value
  {
    match stored
    case None => []
    case Some(records) => records
  }

  /** The storage index that a selected table row is mapped to: its mirror. */
  function MirrorIndex(count: nat, row: nat): (i: nat)
    requires row < count
    ensures i < count
  {
    count - 1 - row
  }

  /** Mirroring twice gives the row back. */
  lemma MirrorIsInvolution(count: nat, row: nat)
    requires row < count
    ensures MirrorIndex(count, MirrorIndex(count, row)) == row
  {
  }

  /** A row maps to itself exactly when it is the middle row of an odd-length history. */
  lemma MirrorFixedPoint(count: nat, row: nat)
    requires row < count
    ensures MirrorIndex(count, row) == row <==> 2 * row + 1 == count
  {
  }

  /** The history after amending as written: the mirror of the selected row is changed. */
  function Amended(history: seq<Record>, row: nat, text: string): (h: seq<Record>)
    requires row < |history|
    ensures |h| == |history|
    ensures h[MirrorIndex(|history|, row)] == history[MirrorIndex(|history|, row)].(actualResult := text)
    ensures forall j :: 0 <= j < |h| && j != MirrorIndex(|history|, row) ==> h[j] == history[j]
  {
    var i := MirrorIndex(|history|, row);
    history[i := history[i].(actualResult := text)]
  }

  /**
   * The table lists records in storage order, so row k shows history[k]. Amending as
   * written gives the selected row the new text only when it is the middle row or
   * already had that text; every other selection leaves the selected record untouched.
   */
  lemma AmendMissesSelectedRow(history: seq<Record>, row: nat, text: string)
    requires row < |history|
    ensures Amended(history, row, text)[row].actualResult == text
            <==> 2 * row + 1 == |history| || history[row].actualResult == text
    ensures 2 * row + 1 != |history| ==> Amended(history, row, text)[row] == history[row]
  {
    MirrorFixedPoint(|history|, row);
  }

  /** Selecting the newest of two records amends the oldest one. */
  lemma AmendCounterexample(newer: Record, older: Record)
    requires newer.actualResult == Pending && older.actualResult == Pending
    ensures Amended([newer, older], 0, "Home Win") == [newer, older.(actualResult := "Home Win")]
    ensures Amended([newer, older], 0, "Home Win")[0].actualResult == Pending
  {
  }

  /** The amendment as evidently intended: the selected row itself is changed. */
  function AmendSelected(history: seq<Record>, row: nat, text: string): seq<Record>
    requires row < |history|
  {
    history[row := history[row].(actualResult := text)]
  }

  /**
   * The intended amendment gives the selected record the new result, keeps all its
   * other fields, keeps the length and leaves every other record as it was.
   */
  lemma AmendSelectedHitsRow(history: seq<Record>, row: nat, text: string)
    requires row < |history|
    ensures |AmendSelected(history, row, text)| == |history|
    ensures AmendSelected(history, row, text)[row].actualResult == text
    ensures AmendSelected(history, row, text)[row].(actualResult := history[row].actualResult) == history[row]
    ensures forall j :: 0 <= j < |history| && j != row ==> AmendSelected(history, row, text)[j] == history[j]
  {
  }

  /** The refusals of add_actual_result, in the order the code makes them. */
  function AmendCheck(selected: Option<nat>, text: string): (r: Option<AmendError>)
    ensures selected.None? ==> r == Some(NoRowSelected)
    ensures selected.Some? ==> (r == Some(NoResultText) <==> text == "" || text == EntryPlaceholder)
    ensures r.None? <==> selected.Some? && text != "" && text != EntryPlaceholder
  {
    if selected.None? then Some(NoRowSelected)
    else if text == "" || text == EntryPlaceholder then Some(NoResultText)
    else None
  }

  /** The application object: what it keeps between user actions is the history list. */
  class Analyser {
    /** Newest record first. */
    var history: seq<Record>

    /** Start-up: the history comes from storage, or is empty when there is none. */
    constructor (stored: Option<seq<Record>>)
      ensures history == LoadHistory(stored)
    {
      history := LoadHistory(stored);
    }

    /** Inserts a record at the front; every older record moves back by one. */
    method SaveToHistory(record: Record)
      modifies this
      ensures history == [record] + old(history)
      ensures history[0] == record && history[1..] == old(history)
    {
      history := [record] + history;
    }

    /**
     * Runs one analysis. On success the new record, with the match label
     * "home vs away" and the result "Pending", is first and the older records follow;
     * on any error the history is unchanged.
     */
    method RunAnalysis(league: string, home: string, away: string, bet: string, date: string)
      returns (outcome: Result<real, AnalysisError>)
      modifies this
      ensures outcome == Analyze(league, home, away, bet)
      ensures outcome.Success? ==>
        history == [Record(date, league, home + " vs " + away, bet, outcome.value, Pending)] + old(history)
      ensures outcome.Failure? ==> history == old(history)
    {
      outcome := Analyze(league, home, away, bet);
      if outcome.Success? {
        SaveToHistory(Record(date, league, home + " vs " + away, bet, outcome.value, Pending));
      }
    }

    /**
     * Records an observed result for the selected table row, as written: with no
     * selection, an empty text or the placeholder nothing changes; otherwise exactly
     * the result field of the mirrored record is replaced.
     */
    method AddActualResult(selected: Option<nat>, text: string) returns (refusal: Option<AmendError>)
      requires selected.Some? ==> selected.value < |history|
      modifies this
      ensures refusal == AmendCheck(selected, text)
      ensures refusal.Some? ==> history == old(history)
      ensures refusal.None? ==> history == Amended(old(history), selected.value, text)
    {
      refusal := AmendCheck(selected, text);
      if refusal.None? {
        var i := MirrorIndex(|history|, selected.value);
        history := history[i := history[i].(actualResult := text)];
      }
    }
  }
}
