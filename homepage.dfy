/** The query builders of the homepage API client: input validation and the
    exact query string, referer and request URL of each endpoint. */
module Homepage {
  import opened Errors
  import opened Text
  import opened Calendar
  import opened Member

  const Host: string := "https://www.nogizaka46.com/s/n46"

  /** The ten category tokens, compared case-sensitively. */
  const CategoryList: seq<string> :=
    ["meet", "live", "goods", "release", "tv", "radio", "musical", "book", "web", "others"]

  /** The three strings read off the wall clock at the time of a call. */
  datatype Clock = Clock(
    timestamp: string,  // minute and second, `%M%S`: the cache-buster token
    today: string,      // `%Y%m%d`
    thisMonth: string)  // `%Y%m`

  /** What a builder hands to the HTTP request: the endpoint, the query
      string and the referer header. */
  datatype Query = Query(apiName: string, param: string, referer: string)

  /** The URL `__api_request` requests for a query. */
  function RequestUrl(q: Query): string {
    Host + "/api/list/" + q.apiName + "?" + q.param + "&callback=res"
  }

  /** The URL determines the endpoint and the query string, as endpoint names hold no `?`. */
  lemma RequestUrlInjective(q1: Query, q2: Query)
    requires '?' !in q1.apiName && '?' !in q2.apiName
    requires RequestUrl(q1) == RequestUrl(q2)
    ensures q1.apiName == q2.apiName && q1.param == q2.param
  {
    var prefix, suffix := Host + "/api/list/", "&callback=res";
    var middle1 := q1.apiName + "?" + q1.param;
    var middle2 := q2.apiName + "?" + q2.param;
    assert RequestUrl(q1) == prefix + middle1 + suffix;
    assert RequestUrl(q2) == prefix + middle2 + suffix;
    var url := RequestUrl(q1);
    assert middle1 == url[|prefix|..|url| - |suffix|];
    assert middle2 == url[|prefix|..|url| - |suffix|];
    SplitAtSeparator(q1.apiName, q1.param, q2.apiName, q2.param, '?');
  }

  /** The referer for the site's front page, carrying the cache-buster token. */
  function RootReferer(clock: Clock): string {
    Host + "/?ima=" + clock.timestamp
  }

  // ---------------------------------------------------------------------
  // Date validation

  function Year(date: string): nat
    requires AllDigits(date) && |date| >= 4
  {
    DigitsValue(date[..4])
  }

  function Month(date: string): nat
    requires AllDigits(date) && |date| >= 6
  {
    DigitsValue(date[4..6])
  }

  function Day(date: string): nat
    requires AllDigits(date) && |date| >= 8
  {
    DigitsValue(date[6..8])
  }

  /** `strptime(s, '%Y%m%d')` succeeds on eight ASCII digits: the four-digit
      year, two-digit month and two-digit day name a real date. */
  predicate ParsesAsDate(s: string)
    requires |s| == 8 && AllDigits(s)
  {
    IsGregorianDate(Year(s), Month(s), Day(s))
  }

  /** The dates the builders accept: `YYYYMM` naming a real month, or
      `YYYYMMDD` naming a real day. */
  ghost predicate DateAccepted(date: string) {
    IsDigitString(date) &&
    ((|date| == 6 && Year(date) >= 1 && 1 <= Month(date) <= 12) ||
     (|date| == 8 && IsGregorianDate(Year(date), Month(date), Day(date))))
  }

  function NotDigitsMessage(date: string): string {
    "Date '" + date + "' is illegal: Not a digit string."
  }

  function BadLengthMessage(date: string): string {
    "Date '" + date + "' is illegal: length of date is illegal."
  }

  function BadMonthMessage(date: string): string {
    "Date '" + date + "' is illegal: month format error.'."
  }

  function BadDayMessage(date: string): string {
    "Date '" + date + "' is illegal: date format error."
  }

  /** The shared date check: the `dy=` parameter for an accepted date, or the
      exception raised, checked in the order digits, length, calendar. */
  function CheckDate(date: string): (r: Result<string>)
    ensures r.Ok? <==> DateAccepted(date)
    ensures r.Ok? ==> r.value == "dy=" + date
    ensures !IsDigitString(date) ==> r == Err(Generic(NotDigitsMessage(date)))
    ensures IsDigitString(date) && |date| != 6 && |date| != 8 ==> r == Err(Args(BadLengthMessage(date)))
    ensures IsDigitString(date) && |date| == 6 && r.Err? ==> r == Err(Args(BadMonthMessage(date)))
    ensures IsDigitString(date) && |date| == 8 && r.Err? ==> r == Err(Args(BadDayMessage(date)))
  {
    if !IsDigitString(date) then Err(Generic(NotDigitsMessage(date)))
    else if |date| != 6 && |date| != 8 then Err(Args(BadLengthMessage(date)))
    else if |date| == 6 then
      var padded := date + "01";
      assert padded[..4] == date[..4] && padded[4..6] == date[4..6] && padded[6..8] == "01";
      assert DigitsValue("01") == 1;
      FirstOfMonth(Year(date), Month(date));
      if ParsesAsDate(padded) then Ok("dy=" + date) else Err(Args(BadMonthMessage(date)))
    else
      if ParsesAsDate(date) then Ok("dy=" + date) else Err(Args(BadDayMessage(date)))
  }

  /** Year, month and (for eight digits) day of a date string, digit by digit. */
  lemma ExampleFields(date: string)
    requires (|date| == 6 || |date| == 8) && AllDigits(date)
    ensures Year(date) == 1000 * (date[0] as int - '0' as int) + 100 * (date[1] as int - '0' as int)
                          + 10 * (date[2] as int - '0' as int) + (date[3] as int - '0' as int)
    ensures Month(date) == 10 * (date[4] as int - '0' as int) + (date[5] as int - '0' as int)
    ensures |date| == 8 ==> Day(date) == 10 * (date[6] as int - '0' as int) + (date[7] as int - '0' as int)
  {
    DigitsValueFour(date[..4]);
    DigitsValueTwo(date[4..6]);
    if |date| == 8 {
      DigitsValueTwo(date[6..8]);
    }
  }

  /** Month 13 is refused as a bad month (the value is padded with day 01). */
  lemma MonthThirteenRefused()
    ensures CheckDate("202313") == Err(Args(BadMonthMessage("202313")))
  {
    ExampleFields("202313");
  }

  /** February 30th is refused as a bad date. */
  lemma FebruaryThirtiethRefused()
    ensures CheckDate("20230230") == Err(Args(BadDayMessage("20230230")))
  {
    ExampleFields("20230230");
  }

  /** Month 00 is refused as a bad date. */
  lemma MonthZeroRefused()
    ensures CheckDate("20230001") == Err(Args(BadDayMessage("20230001")))
  {
    ExampleFields("20230001");
  }

  /** February 29th is accepted in a leap year. */
  lemma LeapDayAccepted()
    ensures CheckDate("20240229").Ok?
  {
    ExampleFields("20240229");
  }

  /** February 29th is refused in a common year. */
  lemma LeapDayRefused()
    ensures CheckDate("20230229") == Err(Args(BadDayMessage("20230229")))
  {
    ExampleFields("20230229");
  }

  /** A month in range is accepted. */
  lemma MonthAccepted()
    ensures CheckDate("202305").Ok?
  {
    ExampleFields("202305");
  }

  /** A non-digit value is refused before its length is looked at. */
  lemma NonDigitRefused()
    ensures CheckDate("2023-5") == Err(Generic(NotDigitsMessage("2023-5")))
  {
    assert !IsDigit("2023-5"[4]);
  }

  /** Seven digits are refused for their length. */
  lemma SevenDigitsRefused()
    ensures CheckDate("2023051") == Err(Args(BadLengthMessage("2023051")))
  {
  }

  // ---------------------------------------------------------------------
  // Category validation

  function BadCategoryMessage(category: string): string {
    "Category '" + category + "' is illegal."
  }

  /** The shared category check: the `ct=` parameter for one of the ten tokens, or ArgsException. */
  function CheckCategory(category: string): (r: Result<string>)
    ensures r.Ok? <==> category in {"meet", "live", "goods", "release", "tv", "radio", "musical", "book", "web", "others"}
    ensures r.Ok? ==> r.value == "ct=" + category
    ensures r.Err? ==> r == Err(Args(BadCategoryMessage(category)))
  {
    if category !in CategoryList then Err(Args(BadCategoryMessage(category)))
    else Ok("ct=" + category)
  }

  /** Categories are matched case-sensitively. */
  lemma CategoryExamples()
    ensures CheckCategory("live").Ok?
    ensures CheckCategory("Live") == Err(Args(BadCategoryMessage("Live")))
  {
  }

  /** The parameter `&key=value` when a value is given, nothing otherwise. */
  function Optional(key: string, o: Option<string>): string {
    if o.Some? then "&" + (key + o.value) else ""
  }

  /** One more parameter at the end of a query string. */
  lemma AppendParam(s: string, param: string)
    ensures s + "&" + param == s + ("&" + param)
  {
  }

  /** The pagination parameters written out. */
  lemma PaginationParam(count: string, start: string)
    ensures "rw=" + count + "&" + ("st=" + start) == "rw=" + count + "&st=" + start
  {
  }

  /** A pagination query splits back into its two values when the first holds no `&`. */
  lemma PaginationSplit(count1: string, start1: string, count2: string, start2: string)
    requires '&' !in count1 && '&' !in count2
    requires "rw=" + count1 + "&st=" + start1 == "rw=" + count2 + "&st=" + start2
    ensures count1 == count2 && start1 == start2
  {
    var q := "rw=" + count1 + "&st=" + start1;
    assert q[3..] == count1 + ['&'] + ("st=" + start1);
    assert q[3..] == count2 + ['&'] + ("st=" + start2);
    SplitAtSeparator(count1, "st=" + start1, count2, "st=" + start2, '&');
    assert start1 == ("st=" + start1)[3..];
    assert start2 == ("st=" + start2)[3..];
  }

  /** The unfiltered news query `rw=<count>&st=<start>` determines both numbers. */
  lemma PaginationDetermines(count1: int, start1: int, count2: int, start2: int)
    requires "rw=" + IntToString(count1) + "&st=" + IntToString(start1)
             == "rw=" + IntToString(count2) + "&st=" + IntToString(start2)
    ensures count1 == count2 && start1 == start2
  {
    IntToStringAvoids(count1, '&');
    IntToStringAvoids(count2, '&');
    PaginationSplit(IntToString(count1), IntToString(start1), IntToString(count2), IntToString(start2));
    IntToStringInjective(count1, count2);
    IntToStringInjective(start1, start2);
  }

  // ---------------------------------------------------------------------
  // Endpoint builders

  /** `get_member`: the whole roster, no query parameter. */
  function GetMember(clock: Clock): (q: Query)
    ensures RequestUrl(q) == "https://www.nogizaka46.com/s/n46/api/list/member?&callback=res"
    ensures q.referer == RootReferer(clock)
  {
    Query("member", "", RootReferer(clock))
  }

  /** The list entry `key=value` when a value is given, none otherwise. */
  function OptionalPart(key: string, o: Option<string>): seq<string> {
    if o.Some? then [key + o.value] else []
  }

  /** The filtered news query, joined: the token, then the optional date and category. */
  lemma FilteredNewsParam(timestamp: string, date: Option<string>, category: Option<string>)
    ensures Join(["ima=" + timestamp] + OptionalPart("dy=", date) + OptionalPart("ct=", category), "&")
            == "ima=" + timestamp + Optional("dy=", date) + Optional("ct=", category)
  {
    var first := ["ima=" + timestamp] + OptionalPart("dy=", date);
    if date.Some? {
      JoinAppend(["ima=" + timestamp], "&", "dy=" + date.value);
      AppendParam("ima=" + timestamp, "dy=" + date.value);
    }
    assert Join(first, "&") == "ima=" + timestamp + Optional("dy=", date);
    if category.Some? {
      JoinAppend(first, "&", "ct=" + category.value);
      AppendParam(Join(first, "&"), "ct=" + category.value);
    } else {
      assert first + OptionalPart("ct=", category) == first;
    }
  }

  /** `get_news`. */
  method GetNews(clock: Clock, date: Option<string> := None, category: Option<string> := None,
                 count: int := 10, start: int := 0)
    returns (r: Result<Query>)
    // no filter: pagination only, front-page referer
    ensures date.None? && category.None? ==>
      r == Ok(Query("news", "rw=" + IntToString(count) + "&st=" + IntToString(start), RootReferer(clock)))
    // the date is checked before the category, so its error wins
    ensures date.Some? && !DateAccepted(date.value) ==> r == Err(CheckDate(date.value).error)
    ensures (date.None? || DateAccepted(date.value)) && category.Some? && CheckCategory(category.value).Err? ==>
      r == Err(Args(BadCategoryMessage(category.value)))
    // filtered: the token, then the date, then the category; no pagination
    ensures (date.Some? || category.Some?) && (date.None? || DateAccepted(date.value)) &&
            (category.None? || CheckCategory(category.value).Ok?) ==>
      r.Ok? && r.value.apiName == "news" &&
      r.value.param == "ima=" + clock.timestamp + Optional("dy=", date) + Optional("ct=", category) &&
      r.value.referer == Host + "/news/list?" + r.value.param
  {
    var apiName := "news";
    var paramList: seq<string> := [];
    var param: string;
    var referer: string;
    if date.None? && category.None? {
      var countText, startText := IntToString(count), IntToString(start);
      paramList := paramList + ["rw=" + countText];
      JoinAppend(paramList, "&", "st=" + startText);
      paramList := paramList + ["st=" + startText];
      param := Join(paramList, "&");
      PaginationParam(countText, startText);
      referer := RootReferer(clock);
    } else {
      paramList := paramList + ["ima=" + clock.timestamp];
      if date.Some? {
        var checked := CheckDate(date.value);
        if checked.Err? {
          return Err(checked.error);
        }
        paramList := paramList + [checked.value];
      }
      if category.Some? {
        var checked := CheckCategory(category.value);
        if checked.Err? {
          return Err(checked.error);
        }
        paramList := paramList + [checked.value];
      }
      assert paramList == ["ima=" + clock.timestamp] + OptionalPart("dy=", date) + OptionalPart("ct=", category);
      FilteredNewsParam(clock.timestamp, date, category);
      param := Join(paramList, "&");
      referer := Host + "/news/list?" + param;
    }
    r := Ok(Query(apiName, param, referer));
  }

  /** The date part of a filtered schedule query: the given date, or the
      current month when none is given. */
  function ScheduleDate(clock: Clock, date: Option<string>): string {
    "dy=" + (if date.Some? then date.value else clock.thisMonth)
  }

  /** `get_schedule`. */
  method GetSchedule(directory: MemberData, clock: Clock, memberName: Option<string> := None,
                     date: Option<string> := None, category: Option<string> := None)
    returns (r: Result<Query>)
    requires directory.Valid()
    // no filter: today's schedule, front-page referer
    ensures memberName.None? && date.None? && category.None? ==>
      r == Ok(Query("schedule", "dy=" + clock.today, RootReferer(clock)))
    // otherwise the date is checked first, then the category, then the member's name
    ensures date.Some? && !DateAccepted(date.value) ==> r == Err(CheckDate(date.value).error)
    ensures (date.None? || DateAccepted(date.value)) && category.Some? && CheckCategory(category.value).Err? ==>
      r == Err(Args(BadCategoryMessage(category.value)))
    ensures (date.None? || DateAccepted(date.value)) && (category.None? || CheckCategory(category.value).Ok?) &&
            memberName.Some? && directory.GetMemberInfo(memberName.value).Err? ==>
      r == Err(Args(UnknownNameMessage(memberName.value)))
    // one member's schedule: the homepage id leads the query, the artist page is the referer
    ensures (date.None? || DateAccepted(date.value)) && (category.None? || CheckCategory(category.value).Ok?) &&
            memberName.Some? && directory.GetMemberInfo(memberName.value).Ok? ==>
      var id := IntToString(directory.GetMemberInfo(memberName.value).value.homepageId);
      r == Ok(Query("schedule",
                    "list[]=" + id + "&" + ScheduleDate(clock, date) + Optional("ct=", category),
                    Host + "/artist/" + id + "?ima=" + clock.timestamp))
    // everyone's schedule: the token leads the query, which the media-list referer repeats
    ensures (date.Some? || category.Some?) && (date.None? || DateAccepted(date.value)) &&
            (category.None? || CheckCategory(category.value).Ok?) && memberName.None? ==>
      r.Ok? && r.value.apiName == "schedule" &&
      r.value.param == "ima=" + clock.timestamp + "&" + ScheduleDate(clock, date) + Optional("ct=", category) &&
      r.value.referer == Host + "/media/list?" + r.value.param
  {
    var paramList: seq<string> := [];
    var param: string;
    var referer: string;
    if memberName.None? && date.None? && category.None? {
      paramList := paramList + ["dy=" + clock.today];
      param := Join(paramList, "&");
      referer := RootReferer(clock);
    } else {
      var dateParam: string;
      var categoryParam: Option<string> := None;
      if date.Some? {
        var checked := CheckDate(date.value);
        if checked.Err? {
          return Err(checked.error);
        }
        dateParam := checked.value;
      } else {
        dateParam := "dy=" + clock.thisMonth;
      }
      if category.Some? {
        var checked := CheckCategory(category.value);
        if checked.Err? {
          return Err(checked.error);
        }
        categoryParam := Some(checked.value);
      }
      var homepageId := "";
      if memberName.Some? {
        var info := directory.GetMemberInfo(memberName.value);
        if info.Err? {
          return Err(info.error);
        }
        homepageId := IntToString(info.value.homepageId);
        paramList := paramList + ["list[]=" + homepageId];
      } else {
        paramList := paramList + ["ima=" + clock.timestamp];
      }
      ghost var lead := paramList[0];
      JoinAppend(paramList, "&", dateParam);
      paramList := paramList + [dateParam];
      assert Join(paramList, "&") == lead + "&" + ScheduleDate(clock, date);
      if categoryParam.Some? {
        JoinAppend(paramList, "&", categoryParam.value);
        AppendParam(Join(paramList, "&"), categoryParam.value);
        paramList := paramList + [categoryParam.value];
      }
      param := Join(paramList, "&");
      assert param == lead + "&" + ScheduleDate(clock, date) + Optional("ct=", category);
      if memberName.Some? {
        referer := Host + "/artist/" + homepageId + "?ima=" + clock.timestamp;
      } else {
        referer := Host + "/media/list?" + param;
      }
    }
    r := Ok(Query("schedule", param, referer));
  }

  /** The query of the all-members blog listing, written out. */
  lemma AllMembersBlogParam(timestamp: string)
    ensures "ima=" + timestamp + "&" + ("rw=" + IntToString(32)) + "&" + ("st=" + IntToString(0))
            == "ima=" + timestamp + "&rw=32&st=0"
  {
  }

  /** A member's blog query, written out. */
  lemma MemberBlogParam(timestamp: string, count: string, start: string, id: string)
    ensures "ima=" + timestamp + "&" + ("rw=" + count) + "&" + ("st=" + start) + "&" + ("ct=" + id)
            == "ima=" + timestamp + "&rw=" + count + "&st=" + start + "&ct=" + id
  {
  }

  /** `get_blog`. */
  method GetBlog(directory: MemberData, clock: Clock, memberName: Option<string> := None,
                 count: int := 8, start: int := 0)
    returns (r: Result<Query>)
    requires directory.Valid()
    // every member's blog: the count and start given are replaced by 32 and 0
    ensures memberName.None? ==>
      r == Ok(Query("blog", "ima=" + clock.timestamp + "&rw=32&st=0",
                    Host + "/diary/MEMBER?ima=" + clock.timestamp))
    ensures memberName.Some? && directory.GetMemberInfo(memberName.value).Err? ==>
      r == Err(Args(UnknownNameMessage(memberName.value)))
    // one member's blog: the homepage id goes last, the artist page is the referer
    ensures memberName.Some? && directory.GetMemberInfo(memberName.value).Ok? ==>
      var id := IntToString(directory.GetMemberInfo(memberName.value).value.homepageId);
      r == Ok(Query("blog",
                    "ima=" + clock.timestamp + "&rw=" + IntToString(count) + "&st=" + IntToString(start) + "&ct=" + id,
                    Host + "/artist/" + id + "?ima=" + clock.timestamp))
  {
    var rows, first := count, start;
    var paramList: seq<string> := ["ima=" + clock.timestamp];
    var referer: string;
    if memberName.None? {
      rows, first := 32, 0;
      JoinAppend(paramList, "&", "rw=" + IntToString(rows));
      paramList := paramList + ["rw=" + IntToString(rows)];
      JoinAppend(paramList, "&", "st=" + IntToString(first));
      paramList := paramList + ["st=" + IntToString(first)];
      AllMembersBlogParam(clock.timestamp);
      referer := Host + "/diary/MEMBER?ima=" + clock.timestamp;
    } else {
      JoinAppend(paramList, "&", "rw=" + IntToString(rows));
      paramList := paramList + ["rw=" + IntToString(rows)];
      JoinAppend(paramList, "&", "st=" + IntToString(first));
      paramList := paramList + ["st=" + IntToString(first)];
      var info := directory.GetMemberInfo(memberName.value);
      if info.Err? {
        return Err(info.error);
      }
      var homepageId := IntToString(info.value.homepageId);
      JoinAppend(paramList, "&", "ct=" + homepageId);
      paramList := paramList + ["ct=" + homepageId];
      MemberBlogParam(clock.timestamp, IntToString(rows), IntToString(first), homepageId);
      referer := Host + "/artist/" + homepageId + "?ima=" + clock.timestamp;
    }
    var param := Join(paramList, "&");
    r := Ok(Query("blog", param, referer));
  }
}
