/**
 * The lookup page of src/pages/Index.tsx: four pieces of state that
 * `handleLookup` moves through a fixed sequence, and the conditions under which
 * the alert, the loading skeleton and the results render.
 */
module IndexPage {
  import opened Wrappers
  import opened Text
  import opened ScreenTimeTypes

  const EnterNumberMessage := "Please enter a phone number"
  const NoDataMessage := "No screen time data found for this phone number. Make sure you've shared your data recently."

  /** Leading whitespace removed. */
  function TrimStart(s: string): (r: string)
    ensures |r| <= |s| && r == s[|s| - |r|..]
    ensures r != [] ==> !IsWhitespace(r[0])
    ensures forall i :: 0 <= i < |s| - |r| ==> IsWhitespace(s[i])
  {
    if s != [] && IsWhitespace(s[0]) then TrimStart(s[1..]) else s
  }

  /** Trailing whitespace removed. */
  function TrimEnd(s: string): (r: string)
    ensures |r| <= |s| && r == s[..|r|]
    ensures r != [] ==> !IsWhitespace(r[|r| - 1])
    ensures forall i :: |r| <= i < |s| ==> IsWhitespace(s[i])
  {
    if s != [] && IsWhitespace(s[|s| - 1]) then TrimEnd(s[..|s| - 1]) else s
  }

  /** `String.prototype.trim`, for ASCII whitespace. */
  function Trim(s: string): (r: string)
    ensures |r| <= |s|
    ensures r != [] ==> !IsWhitespace(r[0]) && !IsWhitespace(r[|r| - 1])
    ensures exists i, j :: 0 <= i <= j <= |s| && r == s[i..j] &&
                           forall k :: 0 <= k < i || j <= k < |s| ==> IsWhitespace(s[k])
  {
    var t := TrimStart(s);
    var r := TrimEnd(t);
    assert r != [] ==> r[0] == t[0];
    var i := |s| - |t|;
    var j := i + |r|;
    TrimIsSlice(s, t, r, i, j);
    r
  }

  /** What is left after both trims is the slice `s[i..j]`, with only whitespace outside it. */
  lemma TrimIsSlice(s: string, t: string, r: string, i: int, j: int)
    requires t == TrimStart(s) && r == TrimEnd(t)
    requires i == |s| - |t| && j == i + |r|
    ensures 0 <= i <= j <= |s| && r == s[i..j]
    ensures forall k :: 0 <= k < i || j <= k < |s| ==> IsWhitespace(s[k])
  {
    assert t == s[i..];
    assert r == t[..|r|];
    forall k | j <= k < |s|
      ensures IsWhitespace(s[k])
    {
      assert s[k] == t[k - i];
    }
  }

  /** `!phoneNumber.trim()`: the trimmed input is empty exactly when the input is all whitespace. */
  lemma TrimEmptyIff(s: string)
    ensures Trim(s) == "" <==> forall i :: 0 <= i < |s| ==> IsWhitespace(s[i])
  {
    var t := TrimStart(s);
    if Trim(s) != "" && forall i :: 0 <= i < |s| ==> IsWhitespace(s[i]) {
      assert t[0] == s[|s| - |t|];
    }
  }

  predicate IsBlank(s: string)
  {
    Trim(s) == ""
  }

  class Page {
    var phoneNumber: string
    var screenTimeData: Option<ScreenTimeData>
    var isLoading: bool
    var error: Option<string>

    /** The initial state of the four `useState` hooks. */
    constructor ()
      ensures phoneNumber == "" && screenTimeData == None && !isLoading && error == None
    {
      phoneNumber := "";
      screenTimeData := None;
      isLoading := false;
      error := None;
    }

    /** The alert renders when `error` is a non-empty string. */
    predicate ShowsError()
      reads this
    {
      error.Some? && error.value != ""
    }

    /** The loading skeleton renders while `isLoading`. */
    predicate ShowsSkeleton()
      reads this
    {
      isLoading
    }

    /** `screenTimeData && !isLoading`: results render only with data and not while loading. */
    predicate ShowsResults()
      reads this
    {
      screenTimeData.Some? && !isLoading
    }

    /** The input's `onChange`. */
    method SetPhoneNumber(s: string)
      modifies this
      ensures phoneNumber == s
      ensures screenTimeData == old(screenTimeData) && isLoading == old(isLoading) && error == old(error)
    {
      phoneNumber := s;
    }

    /**
     * The synchronous part of `handleLookup`, up to the `await`. A blank input
     * only sets the error and issues no lookup; otherwise the page starts
     * loading with no error and no data.
     */
    method BeginLookup() returns (issued: bool)
      modifies this
      ensures issued <==> !IsBlank(old(phoneNumber))
      ensures phoneNumber == old(phoneNumber)
      ensures !issued ==> error == Some(EnterNumberMessage) &&
                          isLoading == old(isLoading) && screenTimeData == old(screenTimeData)
      ensures issued ==> isLoading && error == None && screenTimeData == None
    {
      if IsBlank(phoneNumber) {
        error := Some(EnterNumberMessage);
        return false;
      }
      isLoading := true;
      error := None;
      screenTimeData := None;
      return true;
    }

    /**
     * The part after the `await`: the `try` stores the record, the `catch`
     * sets the fixed message whatever was thrown, the `finally` stops loading.
     */
    method FinishLookup(outcome: Result<ScreenTimeData>)
      modifies this
      ensures phoneNumber == old(phoneNumber) && !isLoading
      ensures outcome.Ok? ==> screenTimeData == Some(outcome.value) && error == old(error)
      ensures outcome.Err? ==> error == Some(NoDataMessage) && screenTimeData == old(screenTimeData)
    {
      match outcome {
        case Ok(data) => screenTimeData := Some(data);
        case Err(_) => error := Some(NoDataMessage);
      }
      isLoading := false;
    }

    /**
     * `handleLookup` run to completion, with the lookup's outcome given. After
     * a non-blank lookup exactly one of `screenTimeData` and `error` is set.
     */
    method HandleLookup(outcome: Result<ScreenTimeData>) returns (issued: bool)
      modifies this
      ensures issued <==> !IsBlank(old(phoneNumber))
      ensures phoneNumber == old(phoneNumber)
      ensures !issued ==> error == Some(EnterNumberMessage) &&
                          isLoading == old(isLoading) && screenTimeData == old(screenTimeData)
      ensures issued ==> !isLoading
      ensures issued && outcome.Ok? ==> screenTimeData == Some(outcome.value) && error == None && ShowsResults()
      ensures issued && outcome.Err? ==> error == Some(NoDataMessage) && screenTimeData == None && !ShowsResults()
      ensures issued ==> (screenTimeData.Some? <==> error.None?)
    {
      issued := BeginLookup();
      if issued {
        FinishLookup(outcome);
      }
    }

    /** `handleKeyPress`: Enter runs the same lookup as the button; any other key changes nothing. */
    method HandleKeyPress(key: string, outcome: Result<ScreenTimeData>) returns (issued: bool)
      modifies this
      ensures key != "Enter" ==>
                !issued && phoneNumber == old(phoneNumber) && screenTimeData == old(screenTimeData) &&
                isLoading == old(isLoading) && error == old(error)
      ensures key == "Enter" ==> (issued <==> !IsBlank(old(phoneNumber)))
      ensures key == "Enter" ==> phoneNumber == old(phoneNumber)
      ensures key == "Enter" && issued ==> !isLoading && (screenTimeData.Some? <==> error.None?)
      ensures key == "Enter" && issued && outcome.Ok? ==>
                screenTimeData == Some(outcome.value) && error == None && ShowsResults()
      ensures key == "Enter" && issued && outcome.Err? ==>
                error == Some(NoDataMessage) && screenTimeData == None && !ShowsResults()
      ensures key == "Enter" && !issued ==>
                error == Some(EnterNumberMessage) && isLoading == old(isLoading) && screenTimeData == old(screenTimeData)
    {
      issued := false;
      if key == "Enter" {
        issued := HandleLookup(outcome);
      }
    }
  }

  /** An input whose first character is not whitespace is not blank. */
  lemma NotBlankWhenStartsVisible(s: string)
    requires s != [] && !IsWhitespace(s[0])
    ensures !IsBlank(s)
  {
    TrimEmptyIff(s);
  }

  /** An input of whitespace only is blank. */
  lemma BlankWhenAllWhitespace(s: string)
    requires forall i :: 0 <= i < |s| ==> IsWhitespace(s[i])
    ensures IsBlank(s)
  {
    TrimEmptyIff(s);
  }

  /**
   * Worked example: a blank submit after a successful lookup shows the alert
   * and still shows the old results.
   */
  method BlankAfterSuccess(data: ScreenTimeData) returns (page: Page)
    ensures page.error == Some(EnterNumberMessage) && page.screenTimeData == Some(data)
    ensures page.ShowsError() && page.ShowsResults()
  {
    var typed, blank := "5551234567", "   ";
    NotBlankWhenStartsVisible(typed);
    BlankWhenAllWhitespace(blank);
    page := new Page();
    page.SetPhoneNumber(typed);
    var issued := page.HandleLookup(Ok(data));
    assert page.ShowsResults() && !page.ShowsError();
    page.SetPhoneNumber(blank);
    issued := page.HandleLookup(Err("unused"));
  }
}
