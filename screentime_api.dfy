/**
 * src/lib/screentime-api.ts: the constant table of screen-time records and
 * `lookupScreenTime`, which tries four spellings of the phone number in a
 * fixed order and returns the record of the first one the table holds.
 */
module ScreenTimeApi {
  import opened Wrappers
  import opened Text
  import opened ScreenTimeTypes
  import TimeUtils

  const NotFoundMessage := "No screen time data found"

  /**
   * `mockScreenTimeData`. The records' `date` is yesterday formatted for
   * display, a value of the clock and the locale; it is passed in as `date`.
   */
  function MockScreenTimeData(date: string): map<string, ScreenTimeData>
  {
    map[
      PlusKey := ScreenTimeData(
        "+1234567890", date, 277,
        [ AppUsage("Instagram", 85, "Social Media"),
          AppUsage("YouTube", 65, "Entertainment"),
          AppUsage("TikTok", 45, "Social Media"),
          AppUsage("WhatsApp", 32, "Messaging"),
          AppUsage("Gmail", 25, "Productivity"),
          AppUsage("Spotify", 15, "Entertainment"),
          AppUsage("Calendar", 10, "Productivity") ],
        CategoryBreakdown(130, 80, 35, 32, 0)),
      LocalKey := ScreenTimeData(
        "5551234567", date, 195,
        [ AppUsage("Netflix", 90, "Entertainment"),
          AppUsage("Messages", 45, "Messaging"),
          AppUsage("Safari", 30, "Other"),
          AppUsage("Docs", 20, "Productivity"),
          AppUsage("Snapchat", 10, "Social Media") ],
        CategoryBreakdown(10, 90, 20, 45, 30))
    ]
  }

  /** Every record is stored under its own phone number and its numbers agree. */
  lemma MockScreenTimeDataConsistent(date: string)
    ensures forall k :: k in MockScreenTimeData(date) ==>
              MockScreenTimeData(date)[k].phoneNumber == k && Consistent(MockScreenTimeData(date)[k])
  {
  }

  lemma MockScreenTimeDataKeys(date: string)
    ensures MockScreenTimeData(date).Keys == {PlusKey, LocalKey}
  {
  }

  /** `phoneNumber.replace(/\D/g, "")`: the digits of the input, in order; `+` is dropped too. */
  function CleanNumber(s: string): (r: string)
    ensures AllDigits(r) && |r| <= |s|
  {
    if s == [] then []
    else (if IsDigit(s[0]) then [s[0]] else []) + CleanNumber(s[1..])
  }

  lemma {:induction false} CleanNumberKeepsDigits(s: string)
    requires AllDigits(s)
    ensures CleanNumber(s) == s
  {
    if s != [] {
      CleanNumberKeepsDigits(s[1..]);
    }
  }

  /** Cleaning works piecewise, so the digits keep their order. */
  lemma {:induction false} CleanNumberConcat(a: string, b: string)
    ensures CleanNumber(a + b) == CleanNumber(a) + CleanNumber(b)
  {
    if a == [] {
      assert a + b == b;
    } else {
      assert (a + b)[1..] == a[1..] + b;
      CleanNumberConcat(a[1..], b);
    }
  }

  /** Every digit of the input survives, as often as it occurs; nothing else does. */
  lemma {:induction false} CleanNumberCounts(s: string, c: char)
    ensures multiset(CleanNumber(s))[c] == if IsDigit(c) then multiset(s)[c] else 0
  {
    if s != [] {
      CleanNumberCounts(s[1..], c);
      assert s == [s[0]] + s[1..];
    }
  }

  /** Stripping the `+` signs as well is all that separates this cleaning from `cleanPhoneNumber`. */
  lemma {:induction false} CleanNumberAfterCleanPhoneNumber(s: string)
    ensures CleanNumber(TimeUtils.CleanPhoneNumber(s)) == CleanNumber(s)
  {
    if s != [] {
      CleanNumberAfterCleanPhoneNumber(s[1..]);
      var head := if TimeUtils.IsPhoneChar(s[0]) then [s[0]] else [];
      CleanNumberConcat(head, TimeUtils.CleanPhoneNumber(s[1..]));
    }
  }

  /** The spellings tried, in order: as typed, digits only, `+1` and digits, `+` and digits. */
  function Candidates(phoneNumber: string): seq<string>
  {
    var clean := CleanNumber(phoneNumber);
    [phoneNumber, clean, "+1" + clean, "+" + clean]
  }

  /** The record of the first of `numbers` that is a key of `table`. */
  function FirstFound(table: map<string, ScreenTimeData>, numbers: seq<string>): Option<ScreenTimeData>
  {
    if numbers == [] then None
    else if numbers[0] in table then Some(table[numbers[0]])
    else FirstFound(table, numbers[1..])
  }

  /** What `lookupScreenTime` resolves to against `table`. */
  function Resolve(table: map<string, ScreenTimeData>, phoneNumber: string): Result<ScreenTimeData>
  {
    match FirstFound(table, Candidates(phoneNumber))
    case Some(d) => Ok(d)
    case None => Err(NotFoundMessage)
  }

  /** The first-found rule: the earliest candidate that is a key decides. */
  lemma {:induction false} FirstFoundIsEarliest(table: map<string, ScreenTimeData>, numbers: seq<string>)
    ensures FirstFound(table, numbers).None? <==> forall i :: 0 <= i < |numbers| ==> numbers[i] !in table
    ensures forall i :: 0 <= i < |numbers| && numbers[i] in table && (forall j :: 0 <= j < i ==> numbers[j] !in table)
              ==> FirstFound(table, numbers) == Some(table[numbers[i]])
  {
    if numbers != [] {
      FirstFoundIsEarliest(table, numbers[1..]);
      assert forall i :: 1 <= i < |numbers| ==> numbers[i] == numbers[1..][i - 1];
    }
  }

  /** The lookup fails with "No screen time data found" exactly when no candidate is a key. */
  lemma ResolveFailsIff(table: map<string, ScreenTimeData>, phoneNumber: string)
    ensures Resolve(table, phoneNumber).Err? <==>
              forall c :: c in Candidates(phoneNumber) ==> c !in table
    ensures Resolve(table, phoneNumber).Err? ==> Resolve(table, phoneNumber).message == NotFoundMessage
  {
    FirstFoundIsEarliest(table, Candidates(phoneNumber));
  }

  /** Earlier spellings take priority: candidate i wins when it is a key and no earlier one is. */
  lemma ResolvePriority(table: map<string, ScreenTimeData>, phoneNumber: string, i: nat)
    requires i < 4 && Candidates(phoneNumber)[i] in table
    requires forall j :: 0 <= j < i ==> Candidates(phoneNumber)[j] !in table
    ensures Resolve(table, phoneNumber) == Ok(table[Candidates(phoneNumber)[i]])
  {
    FirstFoundIsEarliest(table, Candidates(phoneNumber));
  }

  /** Sequence equality with a prefix split off, for the candidate spellings below. */
  lemma PrefixedEq(p: string, d: string, t: string)
    requires |p| <= |t|
    ensures p + d == t <==> t[..|p|] == p && d == t[|p|..]
  {
    if p + d == t {
      assert t[..|p|] == (p + d)[..|p|];
      assert t[|p|..] == (p + d)[|p|..];
    }
  }

  const PlusKey := "+1234567890"
  const LocalKey := "5551234567"

  lemma CleanPlusKey()
    ensures CleanNumber(PlusKey) == "1234567890"
  {
    assert PlusKey == "+" + "1234567890";
    assert CleanNumber("+") == "";
    assert AllDigits("1234567890");
    CleanNumberKeepsDigits("1234567890");
    CleanNumberConcat("+", "1234567890");
  }

  /** Which of the four spellings built from `phoneNumber` and its digits `d` equal `+1234567890`. */
  lemma PlusKeyAmong(phoneNumber: string, d: string)
    requires AllDigits(d)
    requires phoneNumber == PlusKey ==> d == "1234567890"
    ensures PlusKey in [phoneNumber, d, "+1" + d, "+" + d] <==> d == "234567890" || d == "1234567890"
  {
    assert PlusKey[0] == '+';
    PrefixedEq("+1", d, PlusKey);
    PrefixedEq("+", d, PlusKey);
  }

  /** The spellings that can meet the key `+1234567890`: only the `+1` and the `+` forms can. */
  lemma PlusKeyCandidates(phoneNumber: string)
    ensures PlusKey in Candidates(phoneNumber) <==>
              CleanNumber(phoneNumber) == "234567890" || CleanNumber(phoneNumber) == "1234567890"
  {
    if phoneNumber == PlusKey {
      CleanPlusKey();
    }
    PlusKeyAmong(phoneNumber, CleanNumber(phoneNumber));
  }

  /** Which of the four spellings equal `5551234567`. */
  lemma LocalKeyAmong(phoneNumber: string, d: string)
    requires phoneNumber == LocalKey ==> d == LocalKey
    ensures LocalKey in [phoneNumber, d, "+1" + d, "+" + d] <==> d == LocalKey
  {
    assert ("+1" + d)[0] == '+' && ("+" + d)[0] == '+';
  }

  /** The spellings that can meet the key `5551234567`: only the first two can, with those digits. */
  lemma LocalKeyCandidates(phoneNumber: string)
    ensures LocalKey in Candidates(phoneNumber) <==> CleanNumber(phoneNumber) == LocalKey
  {
    if phoneNumber == LocalKey {
      CleanNumberKeepsDigits(phoneNumber);
    }
    LocalKeyAmong(phoneNumber, CleanNumber(phoneNumber));
  }

  /**
   * For any table holding exactly the two keys of the constant table, the
   * lookup succeeds exactly when the digits of the input are 5551234567,
   * 234567890 or 1234567890, and the record returned depends on them alone.
   */
  lemma LookupByDigits(table: map<string, ScreenTimeData>, phoneNumber: string)
    requires table.Keys == {PlusKey, LocalKey}
    ensures Resolve(table, phoneNumber).Ok? <==>
              CleanNumber(phoneNumber) in ["5551234567", "234567890", "1234567890"]
    ensures CleanNumber(phoneNumber) == "5551234567" ==>
              Resolve(table, phoneNumber) == Ok(table[LocalKey])
    ensures CleanNumber(phoneNumber) == "234567890" || CleanNumber(phoneNumber) == "1234567890" ==>
              Resolve(table, phoneNumber) == Ok(table[PlusKey])
  {
    var c := Candidates(phoneNumber);
    PlusKeyCandidates(phoneNumber);
    LocalKeyCandidates(phoneNumber);
    FirstFoundIsEarliest(table, c);
    var d := CleanNumber(phoneNumber);
    if d == LocalKey {
      assert c[1] in table;
      assert c[0] in table ==> c[0] == LocalKey;
    } else if d == "234567890" || d == "1234567890" {
      assert forall j :: 0 <= j < 4 && c[j] in table ==> c[j] == PlusKey;
    }
  }

  /** `LookupByDigits` for the constant table. */
  lemma MockLookupByDigits(phoneNumber: string, date: string)
    ensures Resolve(MockScreenTimeData(date), phoneNumber).Ok? <==>
              CleanNumber(phoneNumber) in ["5551234567", "234567890", "1234567890"]
    ensures CleanNumber(phoneNumber) == "5551234567" ==>
              Resolve(MockScreenTimeData(date), phoneNumber) == Ok(MockScreenTimeData(date)[LocalKey])
    ensures CleanNumber(phoneNumber) == "234567890" || CleanNumber(phoneNumber) == "1234567890" ==>
              Resolve(MockScreenTimeData(date), phoneNumber) == Ok(MockScreenTimeData(date)[PlusKey])
  {
    MockScreenTimeDataKeys(date);
    LookupByDigits(MockScreenTimeData(date), phoneNumber);
  }

  /** The digits of `a + b`, computed piecewise. */
  lemma CleanNumberOfParts(a: string, b: string, da: string, db: string)
    requires CleanNumber(a) == da && CleanNumber(b) == db
    ensures CleanNumber(a + b) == da + db
  {
    CleanNumberConcat(a, b);
  }

  /** `"(555) 123-4567"` is found through its digits-only spelling, the second one tried. */
  lemma LookupExampleDigitsOnly(date: string, phoneNumber: string)
    requires phoneNumber == "(555) 123-4567"
    ensures Candidates(phoneNumber)[1] == LocalKey
    ensures Resolve(MockScreenTimeData(date), phoneNumber) == Ok(MockScreenTimeData(date)[LocalKey])
  {
    ExampleDigitsOnlyDigits(phoneNumber);
    MockLookupByDigits(phoneNumber, date);
  }

  lemma ExampleDigitsOnlyDigits(phoneNumber: string)
    requires phoneNumber == "(555) 123-4567"
    ensures CleanNumber(phoneNumber) == LocalKey
  {
    assert CleanNumber("(555) ") == "555" && CleanNumber("123-4567") == "1234567";
    CleanNumberOfParts("(555) ", "123-4567", "555", "1234567");
    assert "(555) " + "123-4567" == phoneNumber;
  }

  /** `"234 567 890"` is found through the `+1` spelling, the third one tried. */
  lemma LookupExampleCountryCode(date: string, phoneNumber: string)
    requires phoneNumber == "234 567 890"
    ensures Candidates(phoneNumber)[2] == PlusKey
    ensures Resolve(MockScreenTimeData(date), phoneNumber) == Ok(MockScreenTimeData(date)[PlusKey])
  {
    ExampleCountryCodeDigits(phoneNumber);
    MockLookupByDigits(phoneNumber, date);
  }

  lemma ExampleCountryCodeDigits(phoneNumber: string)
    requires phoneNumber == "234 567 890"
    ensures CleanNumber(phoneNumber) == "234567890"
  {
    assert CleanNumber("234 ") == "234" && CleanNumber("567 890") == "567890";
    CleanNumberOfParts("234 ", "567 890", "234", "567890");
    assert "234 " + "567 890" == phoneNumber;
  }

  /** `"+1 234 567 890"` is found through the `+` spelling, the last one tried. */
  lemma LookupExamplePlus(date: string, phoneNumber: string)
    requires phoneNumber == "+1 234 567 890"
    ensures Candidates(phoneNumber)[3] == PlusKey
    ensures Resolve(MockScreenTimeData(date), phoneNumber) == Ok(MockScreenTimeData(date)[PlusKey])
  {
    ExamplePlusDigits(phoneNumber);
    MockLookupByDigits(phoneNumber, date);
  }

  lemma ExamplePlusDigits(phoneNumber: string)
    requires phoneNumber == "+1 234 567 890"
    ensures CleanNumber(phoneNumber) == "1234567890"
  {
    assert CleanNumber("+1 234 ") == "1234" && CleanNumber("567 890") == "567890";
    CleanNumberOfParts("+1 234 ", "567 890", "1234", "567890");
    assert "+1 234 " + "567 890" == phoneNumber;
  }

  /**
   * `lookupScreenTime`: the `for…of` loop over the candidates with its early
   * return, and the final throw.
   */
  method LookupScreenTime(phoneNumber: string, date: string) returns (r: Result<ScreenTimeData>)
    ensures r == Resolve(MockScreenTimeData(date), phoneNumber)
    ensures r.Ok? ==> exists i :: 0 <= i < 4 && Candidates(phoneNumber)[i] in MockScreenTimeData(date) &&
                        r.value == MockScreenTimeData(date)[Candidates(phoneNumber)[i]] &&
                        forall j :: 0 <= j < i ==> Candidates(phoneNumber)[j] !in MockScreenTimeData(date)
    ensures r.Err? ==> r.message == NotFoundMessage &&
                       forall j :: 0 <= j < 4 ==> Candidates(phoneNumber)[j] !in MockScreenTimeData(date)
  {
    var table := MockScreenTimeData(date);
    var possibleNumbers := Candidates(phoneNumber);
    FirstFoundIsEarliest(table, possibleNumbers);
    for k := 0 to |possibleNumbers|
      invariant forall j :: 0 <= j < k ==> possibleNumbers[j] !in table
    {
      var number := possibleNumbers[k];
      if number in table {
        return Ok(table[number]);
      }
    }
    return Err(NotFoundMessage);
  }
}
