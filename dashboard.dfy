/**
 * Dashboard: the page controller.  It keeps the uploaded file, its preview
 * rows, the chosen forecast period, the in-flight flag and the last forecast,
 * and derives the month-picker bounds and the button state from them.
 */
module DashboardPage {
  import opened Wrappers
  import opened Decimal
  import opened Calendar
  import Upload
  import ForecastDisplay

  /** One preview row as Papa.parse returns it with `header: true`: column name to cell text. */
  type CsvRecord = seq<(string, string)>

  /** The multipart form `handleGenerateForecast` posts. */
  datatype ForecastRequest = ForecastRequest(trainFile: Upload.File, trainFileName: string, startMonth: string, endMonth: string)

  /**
   * How `await fetch(...)` and `await response.json()` end: with the parsed
   * body (None for a JSON `null`), or by throwing (network failure, or a body
   * that is not JSON).
   */
  datatype FetchOutcome = Parsed(body: Option<ForecastDisplay.ForecastDocument>) | Threw

  // ---------------------------------------------------------------------------
  // Month-picker bounds
  // ---------------------------------------------------------------------------

  /** `minStartDate`: the first of the month after today's, from `getFullYear()` and `getMonth()`. */
  function MinStartMonth(todayYear: int, todayMonthIndex: int): (m: Month)
    requires 0 <= todayMonthIndex < 12
    ensures todayMonthIndex < 11 ==> YearOf(m) == todayYear && MonthOfYear(m) == todayMonthIndex + 2
    ensures todayMonthIndex == 11 ==> YearOf(m) == todayYear + 1 && MonthOfYear(m) == 1
  {
    DateOf(todayYear, todayMonthIndex + 1)
  }

  /** The text `new Date(NaN)` gives `formatMonth`. */
  const InvalidMonthText: string := "NaN-NaN"

  /**
   * The end input's `min` and `max` attributes: empty without a start month,
   * otherwise the months one and six after `new Date(startMonth)`.
   */
  function EndBounds(startMonth: string): (string, string)
  {
    if startMonth == "" then ("", "") else WindowBounds(ParseMonth(startMonth))
  }

  /**
   * `formatMonth(new Date(y, m + 1, 1))` and `formatMonth(new Date(y, m + 6, 1))`
   * for the start date's year y and month index m; an unreadable start is an
   * invalid date.
   */
  function WindowBounds(start: Option<Month>): (string, string)
  {
    match start
    case None => (InvalidMonthText, InvalidMonthText)
    case Some(s) =>
      var year, monthIndex := YearOf(s), MonthOfYear(s) - 1;
      (MonthText(DateOf(year, monthIndex + 1)), MonthText(DateOf(year, monthIndex + 6)))
  }

  /**
   * For a start month S the picker offers S+1 through S+6, rolling the year
   * over; S itself lies outside the window.
   */
  lemma {:induction false} EndWindow(startMonth: string, s: Month)
    requires ParseMonth(startMonth) == Some(s)
    requires 1000 <= YearOf(s) <= 9998
    ensures ParseMonth(EndBounds(startMonth).0) == Some(s + 1)
    ensures ParseMonth(EndBounds(startMonth).1) == Some(s + 6)
  {
    WindowMin(s);
    WindowMax(s);
  }

  lemma {:induction false} WindowMin(s: Month)
    requires 1000 <= YearOf(s) <= 9998
    ensures ParseMonth(WindowBounds(Some(s)).0) == Some(s + 1)
  {
    WindowIsShift(s);
    ReadsBackShifted(s, 1);
  }

  lemma {:induction false} WindowMax(s: Month)
    requires 1000 <= YearOf(s) <= 9998
    ensures ParseMonth(WindowBounds(Some(s)).1) == Some(s + 6)
  {
    WindowIsShift(s);
    ReadsBackShifted(s, 6);
  }

  lemma {:induction false} WindowIsShift(s: Month)
    ensures WindowBounds(Some(s)) == (MonthText(s + 1), MonthText(s + 6))
  {
    var year, monthIndex := YearOf(s), MonthOfYear(s) - 1;
    assert DateOf(year, monthIndex + 1) == s + 1 && DateOf(year, monthIndex + 6) == s + 6 by {
      DateOfYearMonth(s);
    }
  }

  lemma {:induction false} ReadsBackShifted(s: Month, k: int)
    requires 1000 <= YearOf(s) <= 9998 && 0 <= k < 12
    ensures ParseMonth(MonthText(s + k)) == Some(s + k)
  {
    YearAfter(s, k);
    ParseMonthText(s + k);
  }

  /** Fewer than twelve months on, the year is the same or the next. */
  lemma {:induction false} YearAfter(s: Month, k: int)
    requires 0 <= k < 12
    ensures YearOf(s) <= YearOf(s + k) <= YearOf(s) + 1
  {
  }

  /** September 2025 offers October 2025 to March 2026. */
  lemma EndWindowRollsOver()
    ensures EndBounds("2025-09") == ("2025-10", "2026-03")
  {
    var s := DateOf(2025, 8);
    SeptemberReads();
    WindowIsShift(s);
    assert s + 1 == DateOf(2025, 9) && s + 6 == DateOf(2026, 2);
    OctoberText();
    MarchText();
  }

  lemma SeptemberReads()
    ensures ParseMonth("2025-09") == Some(DateOf(2025, 8))
  {
    var t := "2025-09";
    assert t[..4] == "2025" && t[5..] == "09";
    assert Value("2025") == 2025 by {
      assert "2025"[..3] == "202" && "202"[..2] == "20" && "20"[..1] == "2" && "2"[..0] == [];
    }
    assert Value("09") == 9 by {
      assert "09"[..1] == "0" && "0"[..0] == [];
    }
  }

  lemma {:induction false} YearText(year: nat)
    requires year == 2025 || year == 2026
    ensures NatToString(year) == [DigitChar(2), DigitChar(0), DigitChar(2), DigitChar(year - 2020)]
  {
    assert NatToString(2) == [DigitChar(2)];
    assert NatToString(20) == [DigitChar(2), DigitChar(0)];
    assert NatToString(202) == [DigitChar(2), DigitChar(0), DigitChar(2)];
  }

  lemma OctoberText()
    ensures MonthText(DateOf(2025, 9)) == "2025-10"
  {
    DateOfParts(2025, 9);
    YearText(2025);
    assert NatToString(10) == [DigitChar(1), DigitChar(0)] by {
      assert NatToString(1) == [DigitChar(1)];
    }
  }

  lemma MarchText()
    ensures MonthText(DateOf(2026, 2)) == "2026-03"
  {
    DateOfParts(2026, 2);
    YearText(2026);
    assert NatToString(3) == [DigitChar(3)];
  }

  // ---------------------------------------------------------------------------
  // The page controller
  // ---------------------------------------------------------------------------

  class Dashboard {
    var uploadedFile: Option<Upload.File>
    var uploadedData: Option<seq<CsvRecord>>
    var fileName: string
    var startMonth: string
    var endMonth: string
    var showForecast: bool
    var isGenerating: bool
    var forecastData: Option<ForecastDisplay.ForecastDocument>

    constructor ()
      ensures uploadedFile.None? && uploadedData.None? && fileName == ""
      ensures startMonth == "" && endMonth == ""
      ensures !showForecast && !isGenerating && forecastData.None?
    {
      uploadedFile := None;
      uploadedData := None;
      fileName := "";
      startMonth := "";
      endMonth := "";
      showForecast := false;
      isGenerating := false;
      forecastData := None;
    }

    /** The guard of `handleGenerateForecast`: a file, a start and an end month, nothing else. */
    predicate ReadyToSubmit()
      reads this
    {
      uploadedFile.Some? && startMonth != "" && endMonth != ""
    }

    /** The Generate button is enabled. */
    predicate CanGenerate()
      reads this
    {
      !(uploadedFile.None? || startMonth == "" || endMonth == "" || isGenerating)
    }

    /** The button is enabled exactly when the handler would submit and no request is outstanding. */
    lemma CanGenerateIff()
      ensures CanGenerate() <==> ReadyToSubmit() && !isGenerating
    {
    }

    /** The end input is disabled until a start month is chosen. */
    predicate EndMonthDisabled()
      reads this
    {
      startMonth == ""
    }

    /** What ForecastDisplay is given, if it is mounted at all. */
    function DisplayedForecast(): (shown: Option<ForecastDisplay.ForecastDocument>)
      reads this
      ensures shown.Some? <==> showForecast && forecastData.Some?
      ensures shown.Some? ==> shown == forecastData
    {
      if showForecast && forecastData.Some? then forecastData else None
    }

    /** `handleDataUpload`: null keeps everything; a file is stored with its name. */
    method HandleDataUpload(file: Option<Upload.File>)
      modifies this`uploadedFile, this`fileName
      ensures file.None? ==> uploadedFile == old(uploadedFile) && fileName == old(fileName)
      ensures file.Some? ==> uploadedFile == file && fileName == file.value.name
    {
      if file.None? {
        return;
      }
      uploadedFile := file;
      fileName := file.value.name;
    }

    /** Papa.parse's `complete` callback: replaces the preview and hides the forecast. */
    method CompleteCsvParse(records: seq<CsvRecord>)
      modifies this`uploadedData, this`showForecast
      ensures uploadedData == Some(records) && !showForecast
      ensures DisplayedForecast().None?
    {
      uploadedData := Some(records);
      showForecast := false;
    }

    /** The start input's `onChange`: stores the value and always clears the end month. */
    method ChangeStartMonth(value: string)
      modifies this`startMonth, this`endMonth
      ensures startMonth == value && endMonth == ""
      ensures EndMonthDisabled() <==> value == ""
      ensures EndMonthDisabled() ==> EndBounds(startMonth) == ("", "")
    {
      startMonth := value;
      endMonth := "";
    }

    /** The end input's `onChange`. */
    method ChangeEndMonth(value: string)
      modifies this`endMonth
      ensures endMonth == value
    {
      endMonth := value;
    }

    /**
     * The synchronous part of `handleGenerateForecast`: returns without any change
     * unless file, start and end are set (never checking the picker window nor
     * `isGenerating`); otherwise marks the request outstanding and builds the form.
     */
    method BeginGenerateForecast() returns (request: Option<ForecastRequest>)
      modifies this`isGenerating
      ensures request.None? <==> !old(ReadyToSubmit())
      ensures request.None? ==> isGenerating == old(isGenerating)
      ensures request.Some? ==>
        isGenerating && request.value == ForecastRequest(uploadedFile.value, uploadedFile.value.name, startMonth, endMonth)
    {
      if uploadedFile.None? || startMonth == "" || endMonth == "" {
        return None;
      }
      isGenerating := true;
      var file := uploadedFile.value;
      request := Some(ForecastRequest(file, file.name, startMonth, endMonth));
    }

    /**
     * The rest of `handleGenerateForecast` once the fetch settles: a parsed body
     * replaces the forecast and shows it (the status code is never checked); a
     * throw raises an alert and leaves both as they were; either way the request
     * is no longer outstanding.
     */
    method FinishGenerateForecast(outcome: FetchOutcome) returns (alerted: bool)
      modifies this`forecastData, this`showForecast, this`isGenerating
      ensures !isGenerating
      ensures alerted <==> outcome.Threw?
      ensures outcome.Parsed? ==> forecastData == outcome.body && showForecast
      ensures outcome.Parsed? ==> DisplayedForecast() == outcome.body
      ensures outcome.Threw? ==> DisplayedForecast() == old(DisplayedForecast())
      ensures outcome.Threw? ==> forecastData == old(forecastData) && showForecast == old(showForecast)
    {
      alerted := false;
      match outcome {
        case Parsed(body) =>
          forecastData := body;
          showForecast := true;
        case Threw =>
          alerted := true;
      }
      isGenerating := false;
    }
  }

  /**
   * A file chosen in the picker, passed through FileUpload to the page.  A
   * rejected file shows an error but leaves the page holding the file accepted
   * before it, so the Generate button stays enabled with that older file.
   */
  method ChooseFile(upload: Upload.FileUpload, page: Dashboard, file: Upload.File)
    modifies upload, page
    ensures upload.status.name == file.name && upload.inputValue == ""
    ensures Upload.Accepts(file) ==> upload.status.state == Upload.Success && page.uploadedFile == Some(file)
    ensures !Upload.Accepts(file) ==> upload.status.state == Upload.Error && page.uploadedFile == old(page.uploadedFile)
    ensures page.startMonth == old(page.startMonth) && page.endMonth == old(page.endMonth)
    ensures page.isGenerating == old(page.isGenerating)
    ensures !Upload.Accepts(file) ==> page.CanGenerate() == old(page.CanGenerate())
  {
    var calls := upload.HandleChange([file]);
    page.HandleDataUpload(calls[0]);
  }
}
