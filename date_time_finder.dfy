/** The time lookups of `date_time_finder.py`: the local time of a city as a
    string, and the day's Fajr time from the aladhan timings API.

    The geocoder, the timezone finder, the zone database with the wall clock,
    and the HTTP client are foreign services; each becomes a function that is
    passed in and either returns a value or raises. */
module DateTimeFinder {
  import opened Values

  // ---------------------------------------------------------------- dates

  /** A `datetime` down to the second. */
  datatype DateTime = DateTime(year: int, month: int, day: int, hour: int, minute: int, second: int)

  predicate IsLeapYear(y: int)
  {
    y % 4 == 0 && (y % 100 != 0 || y % 400 == 0)
  }

  function DaysInMonth(y: int, m: int): int
    requires 1 <= m <= 12
  {
    if m == 2 then (if IsLeapYear(y) then 29 else 28)
    else if m == 4 || m == 6 || m == 9 || m == 11 then 30
    else 31
  }

  /** The values a Python `datetime` accepts (years 1 to 9999). */
  predicate ValidDateTime(d: DateTime)
  {
    && 1 <= d.year <= 9999
    && 1 <= d.month <= 12
    && 1 <= d.day <= DaysInMonth(d.year, d.month)
    && 0 <= d.hour < 24
    && 0 <= d.minute < 60
    && 0 <= d.second < 60
  }

  type LocalDateTime = d: DateTime | ValidDateTime(d) witness DateTime(2000, 1, 1, 0, 0, 0)

  predicate IsDigit(c: char)
  {
    '0' <= c <= '9'
  }

  function Digit(n: int): (c: char)
    requires 0 <= n <= 9
    ensures IsDigit(c)
  {
    ('0' as int + n) as char
  }

  function DigitValue(c: char): int
    requires IsDigit(c)
  {
    c as int - '0' as int
  }

  /** Zero-padded two-digit decimal, as `%m`, `%d`, `%H`, `%M`, `%S` print. */
  function Pad2(n: int): string
    requires 0 <= n < 100
  {
    [Digit(n / 10), Digit(n % 10)]
  }

  /** Zero-padded four-digit decimal, as `%Y` prints. */
  function Pad4(n: int): string
    requires 0 <= n < 10000
  {
    Pad2(n / 100) + Pad2(n % 100)
  }

  predicate AllDigits(s: string)
  {
    forall k | 0 <= k < |s| :: IsDigit(s[k])
  }

  /** The number a two-digit string spells. */
  function Value2(s: string): int
    requires |s| == 2 && AllDigits(s)
  {
    10 * DigitValue(s[0]) + DigitValue(s[1])
  }

  /** The number a four-digit string spells. */
  function Value4(s: string): int
    requires |s| == 4 && AllDigits(s)
  {
    100 * Value2(s[0..2]) + Value2(s[2..4])
  }

  lemma DigitRoundTrip(n: int, c: char)
    requires 0 <= n <= 9 && IsDigit(c)
    ensures DigitValue(Digit(n)) == n
    ensures Digit(DigitValue(c)) == c
  {
  }

  lemma Pad2Value(n: int)
    requires 0 <= n < 100
    ensures AllDigits(Pad2(n)) && Value2(Pad2(n)) == n
  {
    DigitRoundTrip(n / 10, '0');
    DigitRoundTrip(n % 10, '0');
  }

  lemma Pad4Value(n: int)
    requires 0 <= n < 10000
    ensures AllDigits(Pad4(n)) && Value4(Pad4(n)) == n
  {
    var s := Pad4(n);
    Pad2Value(n / 100);
    Pad2Value(n % 100);
    assert s[0..2] == Pad2(n / 100) && s[2..4] == Pad2(n % 100);
  }

  lemma Pad2OfValue(s: string)
    requires |s| == 2 && AllDigits(s)
    ensures 0 <= Value2(s) < 100 && Pad2(Value2(s)) == s
  {
    var a, b := DigitValue(s[0]), DigitValue(s[1]);
    DigitRoundTrip(a, s[0]);
    DigitRoundTrip(b, s[1]);
    assert (10 * a + b) / 10 == a && (10 * a + b) % 10 == b;
  }

  lemma Pad4OfValue(s: string)
    requires |s| == 4 && AllDigits(s)
    ensures 0 <= Value4(s) < 10000 && Pad4(Value4(s)) == s
  {
    Pad2OfValue(s[0..2]);
    Pad2OfValue(s[2..4]);
    var hi, lo := Value2(s[0..2]), Value2(s[2..4]);
    assert (100 * hi + lo) / 100 == hi && (100 * hi + lo) % 100 == lo;
    assert s == s[0..2] + s[2..4];
  }

  // ----------------------------------------------------------- formatting

  /** `strftime('%Y-%m-%d %H:%M:%S')`. What it prints always has the shape
      the matching `strptime` format reads. */
  function FormatTimestamp(d: DateTime): (s: string)
    requires ValidDateTime(d)
    ensures TimestampShape(s)
  {
    Pad4Value(d.year);
    Pad2Value(d.month);
    Pad2Value(d.day);
    Pad2Value(d.hour);
    Pad2Value(d.minute);
    Pad2Value(d.second);
    var s := Pad4(d.year) + "-" + Pad2(d.month) + "-" + Pad2(d.day) + " "
      + Pad2(d.hour) + ":" + Pad2(d.minute) + ":" + Pad2(d.second);
    assert s[0..4] == Pad4(d.year) && s[5..7] == Pad2(d.month) && s[8..10] == Pad2(d.day);
    assert s[11..13] == Pad2(d.hour) && s[14..16] == Pad2(d.minute) && s[17..19] == Pad2(d.second);
    s
  }

  /** `strftime("%d-%m-%Y")`, the date form the timings API takes in its
      path: two digits, a dash, two digits, a dash, four digits. */
  function FormatDate(d: DateTime): (s: string)
    requires ValidDateTime(d)
    ensures |s| == 10 && s[2] == '-' && s[5] == '-'
    ensures AllDigits(s[0..2]) && AllDigits(s[3..5]) && AllDigits(s[6..10])
  {
    Pad4Value(d.year);
    Pad2Value(d.month);
    Pad2Value(d.day);
    var s := Pad2(d.day) + "-" + Pad2(d.month) + "-" + Pad4(d.year);
    assert s[0..2] == Pad2(d.day) && s[3..5] == Pad2(d.month) && s[6..10] == Pad4(d.year);
    s
  }

  /** The positions of a `%Y-%m-%d %H:%M:%S` string that hold digits. */
  predicate TimestampShape(s: string)
  {
    && |s| == 19
    && s[4] == '-' && s[7] == '-' && s[10] == ' ' && s[13] == ':' && s[16] == ':'
    && AllDigits(s[0..4]) && AllDigits(s[5..7]) && AllDigits(s[8..10])
    && AllDigits(s[11..13]) && AllDigits(s[14..16]) && AllDigits(s[17..19])
  }

  /** `datetime.strptime(s, '%Y-%m-%d %H:%M:%S')`: `None` where Python
      raises ValueError (wrong shape, or a field out of range for a
      `datetime`). Only the exact zero-padded form is accepted. */
  function ParseTimestamp(s: string): (r: Option<DateTime>)
    ensures r.Some? ==> ValidDateTime(r.value)
  {
    if !TimestampShape(s) then None
    else
      var d := DateTime(Value4(s[0..4]), Value2(s[5..7]), Value2(s[8..10]),
                        Value2(s[11..13]), Value2(s[14..16]), Value2(s[17..19]));
      if ValidDateTime(d) then Some(d) else None
  }

  lemma FormatTimestampPieces(d: DateTime)
    requires ValidDateTime(d)
    ensures var s := FormatTimestamp(d);
      && |s| == 19
      && s[0..4] == Pad4(d.year) && s[5..7] == Pad2(d.month) && s[8..10] == Pad2(d.day)
      && s[11..13] == Pad2(d.hour) && s[14..16] == Pad2(d.minute) && s[17..19] == Pad2(d.second)
      && s[4] == '-' && s[7] == '-' && s[10] == ' ' && s[13] == ':' && s[16] == ':'
  {
  }

  /** A timestamp is its date and its time of day joined by one space, and
      neither half contains a space; the time of day starts with `HH:MM`. */
  lemma TimestampHalves(d: DateTime)
    requires ValidDateTime(d)
    ensures var date := Pad4(d.year) + "-" + Pad2(d.month) + "-" + Pad2(d.day);
      var time := Pad2(d.hour) + ":" + Pad2(d.minute) + ":" + Pad2(d.second);
      && FormatTimestamp(d) == date + " " + time
      && ' ' !in date && ' ' !in time
      && time[..5] == Pad2(d.hour) + ":" + Pad2(d.minute)
  {
    var date := Pad4(d.year) + "-" + Pad2(d.month) + "-" + Pad2(d.day);
    var time := Pad2(d.hour) + ":" + Pad2(d.minute) + ":" + Pad2(d.second);
    var hm := Pad2(d.hour) + ":" + Pad2(d.minute);
    assert time == hm + (":" + Pad2(d.second));
    assert time[..5] == hm;
    assert FormatTimestamp(d) == date + " " + time;
  }

  /** Parsing what `FormatTimestamp` printed gives the same moment back. */
  lemma ParseFormatted(d: DateTime)
    requires ValidDateTime(d)
    ensures ParseTimestamp(FormatTimestamp(d)) == Some(d)
  {
    FormatTimestampPieces(d);
    Pad4Value(d.year);
    Pad2Value(d.month);
    Pad2Value(d.day);
    Pad2Value(d.hour);
    Pad2Value(d.minute);
    Pad2Value(d.second);
  }

  /** Whatever parses was printed by `FormatTimestamp`: the parser accepts
      exactly the strings the formatter produces. */
  lemma FormattedParsed(s: string, d: DateTime)
    requires ParseTimestamp(s) == Some(d)
    ensures ValidDateTime(d) && FormatTimestamp(d) == s
  {
    Pad4OfValue(s[0..4]);
    Pad2OfValue(s[5..7]);
    Pad2OfValue(s[8..10]);
    Pad2OfValue(s[11..13]);
    Pad2OfValue(s[14..16]);
    Pad2OfValue(s[17..19]);
    FormatTimestampPieces(d);
    var t := FormatTimestamp(d);
    assert forall k | 0 <= k < 19 :: s[k] == t[k] by {
      forall k | 0 <= k < 19 ensures s[k] == t[k] {
        if k < 4 { assert s[k] == s[0..4][k] && t[k] == t[0..4][k]; }
        else if 5 <= k < 7 { assert s[k] == s[5..7][k - 5] && t[k] == t[5..7][k - 5]; }
        else if 8 <= k < 10 { assert s[k] == s[8..10][k - 8] && t[k] == t[8..10][k - 8]; }
        else if 11 <= k < 13 { assert s[k] == s[11..13][k - 11] && t[k] == t[11..13][k - 11]; }
        else if 14 <= k < 16 { assert s[k] == s[14..16][k - 14] && t[k] == t[14..16][k - 14]; }
        else if 17 <= k < 19 { assert s[k] == s[17..19][k - 17] && t[k] == t[17..19][k - 17]; }
      }
    }
  }

  /** The reformat in `get_fajr_time` keeps the day, month and year digits of
      the timestamp, puts them in day-month-year order and drops the time. */
  lemma FormatDateReordersTimestamp(d: DateTime)
    requires ValidDateTime(d)
    ensures var s := FormatTimestamp(d);
      FormatDate(d) == s[8..10] + "-" + s[5..7] + "-" + s[0..4]
  {
    FormatTimestampPieces(d);
  }

  // ------------------------------------------------------- city lookups

  datatype Coordinates = Coordinates(latitude: real, longitude: real)

  /** The foreign services `get_current_time_by_city` consults:
      `Nominatim.geocode`, `TimezoneFinder.timezone_at`, and
      `datetime.now(ZoneInfo(zone))`. */
  datatype Services = Services(
    geocode: string -> Attempt<Option<Coordinates>>,
    timezoneAt: Coordinates -> Attempt<Option<string>>,
    localNow: string -> Attempt<LocalDateTime>)

  /** The four outcomes of `get_current_time_by_city`. */
  datatype CityTime =
    | LocalTime(now: LocalDateTime)  // both lookups succeeded and the clock was read
    | NoTimezone                     // the place was found but has no timezone
    | NoLocation                     // the geocoder found nothing
    | LookupError(message: string)   // one of the calls raised

  /** The decision made by the nested `if`s and the `try`. A zone name is
      used only when it is truthy, i.e. present and not empty. */
  function ResolveCityTime(city: string, sv: Services): (t: CityTime)
    ensures sv.geocode(city).Raised? ==> t == LookupError(sv.geocode(city).message)
    ensures t == NoLocation <==> sv.geocode(city) == Returned(None)
    ensures t.LocalTime? || t == NoTimezone ==> sv.geocode(city).Returned? && sv.geocode(city).value.Some?
    ensures t.LocalTime? ==>
      var zone := sv.timezoneAt(sv.geocode(city).value.value);
      && zone.Returned? && zone.value.Some? && zone.value.value != ""
      && sv.localNow(zone.value.value) == Returned(t.now)
    ensures t == NoTimezone <==>
      && sv.geocode(city).Returned? && sv.geocode(city).value.Some?
      && var zone := sv.timezoneAt(sv.geocode(city).value.value);
         zone.Returned? && (zone.value.None? || zone.value.value == "")
    ensures sv.geocode(city).Returned? && sv.geocode(city).value.Some? ==>
      var zone := sv.timezoneAt(sv.geocode(city).value.value);
      zone.Raised? ==> t == LookupError(zone.message)
    ensures sv.geocode(city).Returned? && sv.geocode(city).value.Some? ==>
      var zone := sv.timezoneAt(sv.geocode(city).value.value);
      zone.Returned? && zone.value.Some? && zone.value.value != "" ==>
        t == match sv.localNow(zone.value.value)
             case Raised(e) => LookupError(e)
             case Returned(now) => LocalTime(now)
  {
    match sv.geocode(city)
    case Raised(e) => LookupError(e)
    case Returned(None) => NoLocation
    case Returned(Some(place)) =>
      match sv.timezoneAt(place)
      case Raised(e) => LookupError(e)
      case Returned(zone) =>
        if zone.Some? && zone.value != "" then
          match sv.localNow(zone.value)
          case Raised(e) => LookupError(e)
          case Returned(now) => LocalTime(now)
        else NoTimezone
  }

  const NoLocationPrefix := "Не удалось найти местоположение для "
  const NoTimezonePrefix := "Не удалось определить часовой пояс для "
  const LookupErrorPrefix := "Произошла ошибка: "

  /** "Location not found for <city>.": the city appears verbatim between
      the fixed prefix and the final full stop. */
  function NoLocationMessage(city: string): (r: string)
    ensures |r| == |NoLocationPrefix| + |city| + 1
    ensures r[..|NoLocationPrefix|] == NoLocationPrefix && r[|NoLocationPrefix|..|r| - 1] == city && r[|r| - 1] == '.'
  {
    NoLocationPrefix + city + "."
  }

  /** "Could not determine the time zone for <city>.": the city appears
      verbatim between the fixed prefix and the final full stop. */
  function NoTimezoneMessage(city: string): (r: string)
    ensures |r| == |NoTimezonePrefix| + |city| + 1
    ensures r[..|NoTimezonePrefix|] == NoTimezonePrefix && r[|NoTimezonePrefix|..|r| - 1] == city && r[|r| - 1] == '.'
  {
    NoTimezonePrefix + city + "."
  }

  /** "An error occurred: <message>": the exception's text follows the fixed
      prefix verbatim. */
  function LookupErrorMessage(message: string): (r: string)
    ensures |r| == |LookupErrorPrefix| + |message|
    ensures r[..|LookupErrorPrefix|] == LookupErrorPrefix && r[|LookupErrorPrefix|..] == message
  {
    LookupErrorPrefix + message
  }

  /** The string `get_current_time_by_city` returns for an outcome: a
      timestamp for a local time, and otherwise a message that starts with
      `П` for an error and with `Н` when the place or its zone was not found. */
  function Render(city: string, t: CityTime): (r: string)
    ensures t.LocalTime? ==> TimestampShape(r)
    ensures !t.LocalTime? ==> |r| > 0 && r[0] == if t.LookupError? then 'П' else 'Н'
  {
    match t
    case LocalTime(now) => FormatTimestamp(now)
    case NoTimezone => NoTimezoneMessage(city)
    case NoLocation => NoLocationMessage(city)
    case LookupError(e) => LookupErrorMessage(e)
  }

  /** None of the three messages has the timestamp shape: each begins with
      a Cyrillic letter where the timestamp has a digit. */
  lemma MessagesDoNotParse(city: string, t: CityTime)
    requires !t.LocalTime?
    ensures ParseTimestamp(Render(city, t)) == None
  {
    var s := Render(city, t);
    assert !IsDigit(s[0]);
    assert |s| >= 4 ==> s[0..4][0] == s[0];
  }

  /** `get_current_time_by_city(city)`. Its result parses as a timestamp
      exactly when both lookups succeeded, and it then parses to the
      clock's reading; otherwise it is the message of its outcome. */
  function GetCurrentTimeByCity(city: string, sv: Services): (r: string)
    ensures var t := ResolveCityTime(city, sv);
      ParseTimestamp(r) == if t.LocalTime? then Some(t.now) else None
    ensures var t := ResolveCityTime(city, sv);
      !t.LocalTime? ==> r == Render(city, t)
  {
    var t := ResolveCityTime(city, sv);
    if t.LocalTime? then
      ParseFormatted(t.now);
      Render(city, t)
    else
      MessagesDoNotParse(city, t);
      Render(city, t)
  }

  /** Each outcome can be told from the string returned for it. */
  lemma RenderIsInjective(city: string, a: CityTime, b: CityTime)
    requires Render(city, a) == Render(city, b)
    ensures a == b
  {
    if a.LocalTime? && b.LocalTime? {
      ParseFormatted(a.now);
      ParseFormatted(b.now);
    } else if a.LocalTime? {
      ParseFormatted(a.now);
      MessagesDoNotParse(city, b);
    } else if b.LocalTime? {
      ParseFormatted(b.now);
      MessagesDoNotParse(city, a);
    } else {
      var s := Render(city, a);
      if a.LookupError? && b.LookupError? {
        var p := LookupErrorMessage("");
        assert a.message == s[|p|..] == b.message;
      } else if !a.LookupError? && !b.LookupError? {
        assert NoTimezoneMessage("")[11] == 'о' && NoLocationMessage("")[11] == 'н';
        var pa := if a.NoTimezone? then NoTimezoneMessage("") else NoLocationMessage("");
        var pb := if b.NoTimezone? then NoTimezoneMessage("") else NoLocationMessage("");
        assert s == pa[..|pa| - 1] + city + "." && s[11] == pa[11];
        assert s == pb[..|pb| - 1] + city + "." && s[11] == pb[11];
      }
    }
  }

  // ------------------------------------------------------------ Fajr time

  const TimingsByCityUrl := "http://api.aladhan.com/v1/timingsByCity"

  /** A GET request: its URL and its query parameters. */
  datatype Request = Request(url: string, params: map<string, Json>)

  /** The request `get_fajr_time` sends for a `DD-MM-YYYY` date. */
  function FajrRequest(city: string, country: string, date: string): (req: Request)
    ensures |req.url| == |TimingsByCityUrl| + 1 + |date|
    ensures req.url[..|TimingsByCityUrl| + 1] == TimingsByCityUrl + "/"
    ensures req.url[|TimingsByCityUrl| + 1..] == date
    ensures req.params.Keys == {"city", "country", "method"}
    ensures req.params["city"] == JStr(city) && req.params["country"] == JStr(country)
    ensures req.params["method"] == JInt(2)
  {
    Request(TimingsByCityUrl + "/" + date, map["city" := JStr(city), "country" := JStr(country), "method" := JInt(2)])
  }

  /** `response['data']['timings']['Fajr']`: it succeeds exactly when each
      level is a dict holding the next key, and then gives the innermost
      entry. */
  function FajrEntry(response: Json): (r: Result<Json>)
    ensures r.Ok? <==>
      && response.JObj? && "data" in response.fields
      && var data := response.fields["data"];
         && data.JObj? && "timings" in data.fields
         && var timings := data.fields["timings"];
            timings.JObj? && "Fajr" in timings.fields
    ensures r.Ok? ==> r.value == response.fields["data"].fields["timings"].fields["Fajr"]
  {
    var data :- Subscript(response, "data");
    var timings :- Subscript(data, "timings");
    Subscript(timings, "Fajr")
  }

  /** `get_fajr_time(city, country)`. The current-time lookup is made first;
      if it gave one of the messages the parse raises ValueError. Otherwise
      the timings for that local date are fetched and their `Fajr` entry is
      the answer. */
  function GetFajrTime(city: string, country: string, sv: Services, fetch: Request -> Attempt<Json>): (r: Result<Json>)
    ensures var t := ResolveCityTime(city, sv);
      !t.LocalTime? ==> r == Err(ValueError)
    ensures var t := ResolveCityTime(city, sv);
      t.LocalTime? ==> r == match fetch(FajrRequest(city, country, FormatDate(t.now)))
                          case Raised(e) => Err(RequestError(e))
                          case Returned(response) => FajrEntry(response)
  {
    var dateTime := GetCurrentTimeByCity(city, sv);
    match ParseTimestamp(dateTime)
    case None => Err(ValueError)
    case Some(d) =>
      var date := FormatDate(d);
      match fetch(FajrRequest(city, country, date))
      case Raised(e) => Err(RequestError(e))
      case Returned(response) => FajrEntry(response)
  }
}
