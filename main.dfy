/** `main.py`: the registration dialogue (`start_handler` and
    `message_handler`), one pass of the reminder loop of `launch_handler`,
    and the registration lookup of `time_handler`.

    Sending a Telegram message is modelled as naming its recipient; the
    replies of the dialogue are modelled by what they report. */
module Bot {
  import opened Values
  import opened Text
  import DateTimeFinder
  import Logger

  // ------------------------------------------------- registration dialogue

  /** The three values `user_states` holds. */
  datatype DialogueState = WaitingForCity | WaitingForCountry | Completed

  /** What `message_handler` answers with. `SaveFailed` is the case where
      `log_user` raised after "saving your data..." was sent, so "Saved" is
      never sent. */
  datatype Reply =
    | NoReply
    | AskForCountry
    | Saved(city: Json, country: string)
    | SaveFailed(failure: Failure)

  /** The shape of `user_data[u]`: a dict with the user's own id and a city. */
  predicate EntryFor(u: int, entry: map<string, Json>)
  {
    && Logger.UserIdKey in entry && entry[Logger.UserIdKey] == JInt(u)
    && "city" in entry && entry["city"].JStr?
  }

  /** A message `message_handler` does nothing with: a command, a sender
      that never sent /start, or a finished dialogue. */
  predicate Ignored(states: map<int, DialogueState>, u: int, text: string)
  {
    StartsWith(text, "/") || u !in states || states[u] == Completed
  }

  /** The entry the city step writes. */
  function CityEntry(u: int, text: string): map<string, Json>
  {
    map[Logger.UserIdKey := JInt(u), "city" := JStr(Strip(text))]
  }

  /** The two maps agree on every user other than `u`. */
  ghost predicate OthersUnchanged<V>(before: map<int, V>, after: map<int, V>, u: int)
  {
    forall v | v != u :: (v in before <==> v in after) && (v in before ==> before[v] == after[v])
  }

  /** Every entry has its owner's id and a city; a user past the city step
      has an entry, and a finished user's entry has a country. */
  predicate DialogueInvariant(states: map<int, DialogueState>, data: map<int, map<string, Json>>)
  {
    && (forall u | u in data :: EntryFor(u, data[u]))
    && (forall u | u in states && states[u] != WaitingForCity :: u in data)
    && (forall u | u in states && states[u] == Completed :: "country" in data[u])
  }

  /** Moving one user to a new state with a new entry keeps the invariant,
      provided the entry has the user's id and a city, and has a country if
      the new state is the finished one. */
  lemma UpdateKeepsInvariant(states: map<int, DialogueState>, data: map<int, map<string, Json>>,
                             u: int, state: DialogueState, entry: map<string, Json>)
    requires DialogueInvariant(states, data)
    requires EntryFor(u, entry) && (state == Completed ==> "country" in entry)
    ensures DialogueInvariant(states[u := state], data[u := entry])
  {
    var states', data' := states[u := state], data[u := entry];
    forall v | v in data' ensures EntryFor(v, data'[v]) {
      if v != u { assert data'[v] == data[v]; }
    }
    forall v | v in states' && states'[v] == Completed ensures "country" in data'[v] {
      if v != u { assert states'[v] == states[v] && data'[v] == data[v]; }
    }
  }

  /** The dialogue state the bot keeps in memory: `user_states` and
      `user_data`, both keyed by sender id. */
  class Dialogue {
    var userStates: map<int, DialogueState>
    var userData: map<int, map<string, Json>>

    ghost predicate Valid()
      reads this
    {
      DialogueInvariant(userStates, userData)
    }

    constructor()
      ensures Valid()
      ensures userStates == map[] && userData == map[]
    {
      userStates := map[];
      userData := map[];
    }

    /** `start_handler`: the sender is asked for a city, whatever state it
        was in, and its data is left as it was. */
    method Start(u: int)
      requires Valid()
      modifies this
      ensures Valid()
      ensures userStates == old(userStates)[u := WaitingForCity]
      ensures userData == old(userData)
    {
      userStates := userStates[u := WaitingForCity];
    }

    /** `message_handler`. A command, an unknown sender or a finished
        dialogue changes nothing. The city step replaces the sender's entry
        by its id and the stripped text and asks for the country. The
        country step adds the stripped text as country, marks the dialogue
        finished and logs the entry once; the stamp `log_user` applies to
        the entry leaves it as it is, because it already carries the
        sender's id. No other user's state or data changes. */
    method Message(u: int, text: string, store: Logger.UserStore) returns (reply: Reply)
      requires Valid()
      modifies this, store
      ensures Valid()
      ensures OthersUnchanged(old(userStates), userStates, u)
      ensures OthersUnchanged(old(userData), userData, u)
      ensures Ignored(old(userStates), u, text) ==>
        && userStates == old(userStates) && userData == old(userData)
        && store.file == old(store.file) && reply == NoReply
      ensures !Ignored(old(userStates), u, text) && old(userStates)[u] == WaitingForCity ==>
        && userData == old(userData)[u := CityEntry(u, text)]
        && userStates == old(userStates)[u := WaitingForCountry]
        && store.file == old(store.file) && reply == AskForCountry
      ensures !Ignored(old(userStates), u, text) && old(userStates)[u] == WaitingForCountry ==>
        var entry := old(userData)[u]["country" := JStr(Strip(text))];
        var logged := Logger.Logged(old(store.file), u, entry);
        && userData == old(userData)[u := entry]
        && userStates == old(userStates)[u := Completed]
        && store.file == (if logged.Ok? then Some(logged.value) else old(store.file))
        && reply == (if logged.Ok? then Saved(entry["city"], Strip(text)) else SaveFailed(logged.failure))
    {
      if StartsWith(text, "/") {
        return NoReply;
      }
      if u in userStates {
        if userStates[u] == WaitingForCity {
          AcceptCity(u, text);
          return AskForCountry;
        } else if userStates[u] == WaitingForCountry {
          reply := AcceptCountry(u, text, store);
          return;
        }
      }
      return NoReply;
    }

    /** The `waiting_for_city` branch of `message_handler`. */
    method AcceptCity(u: int, text: string)
      requires Valid()
      modifies this
      ensures Valid()
      ensures userData == old(userData)[u := CityEntry(u, text)]
      ensures userStates == old(userStates)[u := WaitingForCountry]
    {
      var city := Strip(text);
      var entry := map[Logger.UserIdKey := JInt(u), "city" := JStr(city)];
      UpdateKeepsInvariant(userStates, userData, u, WaitingForCountry, entry);
      userData := userData[u := entry];
      userStates := userStates[u := WaitingForCountry];
    }

    /** The `waiting_for_country` branch of `message_handler`. */
    method AcceptCountry(u: int, text: string, store: Logger.UserStore) returns (reply: Reply)
      requires Valid() && u in userStates && userStates[u] == WaitingForCountry
      modifies this, store
      ensures Valid()
      ensures var entry := old(userData)[u]["country" := JStr(Strip(text))];
        var logged := Logger.Logged(old(store.file), u, entry);
        && userData == old(userData)[u := entry]
        && userStates == old(userStates)[u := Completed]
        && store.file == (if logged.Ok? then Some(logged.value) else old(store.file))
        && reply == (if logged.Ok? then Saved(entry["city"], Strip(text)) else SaveFailed(logged.failure))
    {
      var country := Strip(text);
      var entry := userData[u]["country" := JStr(country)];
      UpdateKeepsInvariant(userStates, userData, u, Completed, entry);
      userData := userData[u := entry];
      userStates := userStates[u := Completed];
      var stamped, raised := store.LogUser(u, entry);
      assert stamped == entry;
      if raised.Some? {
        return SaveFailed(raised.value);
      }
      return Saved(userData[u]["city"], country);
    }
  }

  /** A whole registration from an empty store: /start, the city, the
      country. The file then holds exactly one registration, with the
      sender's id and the stripped city and country. */
  method Register(u: int, city: string, country: string) returns (file: Option<Json>)
    requires !StartsWith(city, "/") && !StartsWith(country, "/")
    ensures file == Some(JObj(map[Logger.UsersKey := JArr([JObj(map[
      Logger.UserIdKey := JInt(u), "city" := JStr(Strip(city)), "country" := JStr(Strip(country))])])]))
  {
    var dialogue := new Dialogue();
    var store := new Logger.UserStore(None);
    dialogue.Start(u);
    ghost var states, data := dialogue.userStates, dialogue.userData;
    assert states[u] == WaitingForCity && !Ignored(states, u, city);
    var r1 := dialogue.Message(u, city, store);
    assert dialogue.userStates == states[u := WaitingForCountry];
    assert dialogue.userData == data[u := CityEntry(u, city)];
    assert store.file == None;
    ghost var states2, data2 := dialogue.userStates, dialogue.userData;
    assert states2[u] == WaitingForCountry && !Ignored(states2, u, country);
    assert data2[u] == CityEntry(u, city);
    ghost var entry := CityEntry(u, city)["country" := JStr(Strip(country))];
    assert Logger.Stamp(entry, u) == entry;
    Logger.LoggingToUnreadableFile(u, entry);
    var r2 := dialogue.Message(u, country, store);
    file := store.file;
  }

  // ------------------------------------------------------ reminder loop

  /** `json.load` of the registrations file followed by iteration over its
      `"users"` entry, as `launch_handler` and `time_handler` do it: neither
      catches anything, so a missing or undecodable file raises. A list is
      iterated item by item; an empty dict or string gives nothing; any
      other value raises TypeError (a non-empty dict or string yields
      strings, and the first subscript by a key of such an item raises). */
  function LoadUsers(file: Option<Json>): (r: Result<seq<Json>>)
    ensures file.None? ==> r == Err(Unreadable)
    ensures r.Ok? <==>
      && file.Some? && file.value.JObj? && Logger.UsersKey in file.value.fields
      && var users := file.value.fields[Logger.UsersKey];
         users.JArr? || users == JObj(map[]) || users == JStr("")
    ensures r.Ok? && file.value.fields[Logger.UsersKey].JArr? ==> r.value == file.value.fields[Logger.UsersKey].items
    ensures r.Ok? && !file.value.fields[Logger.UsersKey].JArr? ==> r.value == []
    ensures file.Some? && file.value.JObj? && Logger.UsersKey !in file.value.fields ==> r == Err(KeyError(Logger.UsersKey))
  {
    match file
    case None => Err(Unreadable)
    case Some(data) =>
      var users :- Subscript(data, Logger.UsersKey);
      match users
      case JArr(items) => Ok(items)
      case JObj(fields) => if fields == map[] then Ok([]) else Err(TypeError)
      case JStr(s) => if s == "" then Ok([]) else Err(TypeError)
      case _ => Err(TypeError)
  }

  /** The two lookups one pass makes for the record at position `k`:
      `get_fajr_time(city, country)`, which may raise, and
      `get_current_time_by_city(city)`, which always returns a string. */
  datatype Lookups = Lookups(
    fajrTime: (nat, Json, Json) -> Result<Json>,
    currentTime: (nat, Json) -> string)

  /** The firing test `current_time.split(" ")[1][:5] == fajr_time`. A
      string without a space has no second piece, and indexing raises. */
  function MinuteMatches(currentTime: string, fajrTime: Json): (r: Result<bool>)
    ensures r.Err? <==> ' ' !in currentTime
    ensures r.Err? ==> r == Err(IndexError)
  {
    SplitCutsAtSeparator(currentTime, ' ');
    var parts := Split(currentTime, ' ');
    if |parts| < 2 then Err(IndexError)
    else Ok(fajrTime == JStr(Take(parts[1], 5)))
  }

  /** What the loop body does with one record. */
  datatype Step = Quiet | Remind(recipient: Json) | Abort(failure: Failure)

  /** The loop body for the record at position `k`: read city and country,
      look up the Fajr time and the current time, compare, and on a match
      read the id and send. */
  function RecordStep(k: nat, user: Json, lk: Lookups): (step: Step)
    ensures !user.JObj? ==> step == Abort(TypeError)
    ensures !step.Abort? ==>
      && user.JObj? && "city" in user.fields && "country" in user.fields
      && lk.fajrTime(k, user.fields["city"], user.fields["country"]).Ok?
    ensures user.JObj? && "city" in user.fields && "country" in user.fields
            && lk.fajrTime(k, user.fields["city"], user.fields["country"]).Err? ==>
      step == Abort(lk.fajrTime(k, user.fields["city"], user.fields["country"]).failure)
    ensures step.Remind? ==> Logger.UserIdKey in user.fields && step.recipient == user.fields[Logger.UserIdKey]
  {
    match Subscript(user, "city")
    case Err(e) => Abort(e)
    case Ok(city) =>
      match Subscript(user, "country")
      case Err(e) => Abort(e)
      case Ok(country) =>
        match lk.fajrTime(k, city, country)
        case Err(e) => Abort(e)
        case Ok(fajr) =>
          match MinuteMatches(lk.currentTime(k, city), fajr)
          case Err(e) => Abort(e)
          case Ok(false) => Quiet
          case Ok(true) =>
            match Subscript(user, Logger.UserIdKey)
            case Err(e) => Abort(e)
            case Ok(id) => Remind(id)
  }

  function Steps(users: seq<Json>, lk: Lookups): (steps: seq<Step>)
    ensures |steps| == |users|
    ensures forall k | 0 <= k < |users| :: steps[k] == RecordStep(k, users[k], lk)
  {
    seq(|users|, k requires 0 <= k < |users| => RecordStep(k, users[k], lk))
  }

  /** Running the steps in order: the recipients messaged before the first
      exception, and that exception, which ends the loop. */
  function Run(steps: seq<Step>): (r: (seq<Json>, Option<Failure>))
    ensures |r.0| <= |steps|
    decreases |steps|
  {
    if |steps| == 0 then ([], None)
    else
      match steps[0]
      case Abort(e) => ([], Some(e))
      case Quiet => Run(steps[1..])
      case Remind(x) => var rest := Run(steps[1..]); ([x] + rest.0, rest.1)
  }

  /** The recipients of all reminders among the steps, in order. */
  function Recipients(steps: seq<Step>): seq<Json>
    decreases |steps|
  {
    if |steps| == 0 then []
    else (if steps[0].Remind? then [steps[0].recipient] else []) + Recipients(steps[1..])
  }

  /** A pass with no exception messages, in record order, the recipient of
      every reminder step and nobody else. */
  lemma {:induction false} RunWithoutAbort(steps: seq<Step>)
    requires forall k | 0 <= k < |steps| :: !steps[k].Abort?
    ensures Run(steps) == (Recipients(steps), None)
    decreases |steps|
  {
    if |steps| > 0 {
      RunWithoutAbort(steps[1..]);
      var rest := Run(steps[1..]);
      if steps[0].Remind? {
        assert Run(steps) == ([steps[0].recipient] + rest.0, rest.1);
      } else {
        assert Run(steps) == rest;
        assert Recipients(steps) == [] + Recipients(steps[1..]) == Recipients(steps[1..]);
      }
    }
  }

  /** An exception at record `k` ends the pass there: the reminders of the
      records before it have been sent, none after it are. */
  lemma {:induction false} RunStopsAtFirstAbort(steps: seq<Step>, k: nat)
    requires k < |steps| && steps[k].Abort?
    requires forall j | 0 <= j < k :: !steps[j].Abort?
    ensures Run(steps) == (Recipients(steps[..k]), Some(steps[k].failure))
    decreases k
  {
    if k > 0 {
      RunStopsAtFirstAbort(steps[1..], k - 1);
      assert steps[1..][..k - 1] == steps[..k][1..];
      assert steps[..k][0] == steps[0] && !steps[0].Abort?;
      var rest := Run(steps[1..]);
      var pre := steps[..k];
      assert Recipients(pre) == (if steps[0].Remind? then [steps[0].recipient] else []) + Recipients(pre[1..]);
      if steps[0].Remind? {
        assert Run(steps) == ([steps[0].recipient] + rest.0, rest.1);
      } else {
        assert Run(steps) == rest;
        assert Recipients(pre) == Recipients(pre[1..]);
      }
    } else {
      assert steps[..k] == [];
    }
  }

  /** Someone is among the recipients exactly when some step reminds them. */
  lemma {:induction false} RecipientsAreReminded(steps: seq<Step>, x: Json)
    ensures x in Recipients(steps) <==> exists k | 0 <= k < |steps| :: steps[k] == Remind(x)
    decreases |steps|
  {
    if |steps| > 0 {
      RecipientsAreReminded(steps[1..], x);
      if x in Recipients(steps[1..]) {
        var k :| 0 <= k < |steps[1..]| && steps[1..][k] == Remind(x);
        assert steps[k + 1] == Remind(x);
      }
      if exists k | 0 <= k < |steps| :: steps[k] == Remind(x) {
        var k :| 0 <= k < |steps| && steps[k] == Remind(x);
        if k > 0 {
          assert steps[1..][k - 1] == Remind(x);
        }
      }
    }
  }

  /** One pass of the `while True` loop of `launch_handler`, without the
      sleep: load the registrations, then for each record in order decide
      and send. `sent` lists the recipients in the order the messages go
      out; `failure` is the exception that ended the loop, if any. */
  method Tick(file: Option<Json>, lk: Lookups) returns (sent: seq<Json>, failure: Option<Failure>)
    ensures LoadUsers(file).Err? ==> sent == [] && failure == Some(LoadUsers(file).failure)
    ensures LoadUsers(file).Ok? ==> (sent, failure) == Run(Steps(LoadUsers(file).value, lk))
  {
    sent := [];
    var loaded := LoadUsers(file);
    if loaded.Err? {
      return [], Some(loaded.failure);
    }
    var users := loaded.value;
    ghost var steps := Steps(users, lk);
    var k := 0;
    while k < |users|
      invariant 0 <= k <= |users|
      invariant Run(steps).0 == sent + Run(steps[k..]).0
      invariant Run(steps).1 == Run(steps[k..]).1
    {
      assert steps[k..][1..] == steps[k + 1..];
      assert steps[k..][0] == steps[k] == RecordStep(k, users[k], lk);
      var user := users[k];
      var city := Subscript(user, "city");
      if city.Err? {
        assert Run(steps[k..]) == ([], Some(city.failure));
        assert sent + [] == sent;
        return sent, Some(city.failure);
      }
      var country := Subscript(user, "country");
      if country.Err? {
        assert Run(steps[k..]) == ([], Some(country.failure));
        assert sent + [] == sent;
        return sent, Some(country.failure);
      }
      var fajrTime := lk.fajrTime(k, city.value, country.value);
      if fajrTime.Err? {
        assert Run(steps[k..]) == ([], Some(fajrTime.failure));
        assert sent + [] == sent;
        return sent, Some(fajrTime.failure);
      }
      var currentTime := lk.currentTime(k, city.value);
      var parts := Split(currentTime, ' ');
      if |parts| < 2 {
        assert Run(steps[k..]) == ([], Some(IndexError));
        assert sent + [] == sent;
        return sent, Some(IndexError);
      }
      if JStr(Take(parts[1], 5)) == fajrTime.value {
        var id := Subscript(user, Logger.UserIdKey);
        if id.Err? {
          assert Run(steps[k..]) == ([], Some(id.failure));
          assert sent + [] == sent;
          return sent, Some(id.failure);
        }
        sent := sent + [id.value];
      }
      k := k + 1;
    }
    assert steps[k..] == [];
    assert sent + [] == sent;
    failure := None;
  }

  /** For a well-formed timestamp the compared prefix is its `HH:MM`: a
      record fires exactly when its Fajr time is the current hour and
      minute written that way. */
  lemma MinuteOfTimestamp(d: DateTimeFinder.DateTime, fajrTime: Json)
    requires DateTimeFinder.ValidDateTime(d)
    ensures MinuteMatches(DateTimeFinder.FormatTimestamp(d), fajrTime)
            == Ok(fajrTime == JStr(DateTimeFinder.Pad2(d.hour) + ":" + DateTimeFinder.Pad2(d.minute)))
  {
    var date := DateTimeFinder.Pad4(d.year) + "-" + DateTimeFinder.Pad2(d.month) + "-" + DateTimeFinder.Pad2(d.day);
    var time := DateTimeFinder.Pad2(d.hour) + ":" + DateTimeFinder.Pad2(d.minute) + ":" + DateTimeFinder.Pad2(d.second);
    DateTimeFinder.TimestampHalves(d);
    assert Join([date, time], ' ') == date + " " + time by {
      assert [date, time][1..] == [time];
    }
    SplitOfJoin([date, time], ' ');
  }

  /** A record that has a city, a country and an id, whose Fajr lookup
      succeeded and whose current time is a timestamp, is reminded exactly
      when the timestamp's hour and minute equal the Fajr time, and is
      otherwise passed over. */
  lemma RecordFiresAtFajrMinute(k: nat, user: Json, lk: Lookups, d: DateTimeFinder.DateTime)
    requires user.JObj? && "city" in user.fields && "country" in user.fields && Logger.UserIdKey in user.fields
    requires lk.fajrTime(k, user.fields["city"], user.fields["country"]).Ok?
    requires DateTimeFinder.ValidDateTime(d) && lk.currentTime(k, user.fields["city"]) == DateTimeFinder.FormatTimestamp(d)
    ensures var fajr := lk.fajrTime(k, user.fields["city"], user.fields["country"]).value;
      RecordStep(k, user, lk)
        == if fajr == JStr(DateTimeFinder.Pad2(d.hour) + ":" + DateTimeFinder.Pad2(d.minute))
           then Remind(user.fields[Logger.UserIdKey]) else Quiet
  {
    MinuteOfTimestamp(d, lk.fajrTime(k, user.fields["city"], user.fields["country"]).value);
  }

  /** A record whose city the geocoder cannot place, looked up through
      `get_fajr_time`, raises ValueError at the `strptime` step. Nothing in
      `launch_handler` catches it, so it ends the reminder loop itself. */
  lemma UnlocatedCityEndsReminders(k: nat, user: Json, lk: Lookups, city: string, country: string,
                                   sv: DateTimeFinder.Services, fetch: DateTimeFinder.Request -> Attempt<Json>)
    requires user.JObj? && "city" in user.fields && "country" in user.fields
    requires lk.fajrTime(k, user.fields["city"], user.fields["country"])
             == DateTimeFinder.GetFajrTime(city, country, sv, fetch)
    requires sv.geocode(city) == Returned(None)
    ensures RecordStep(k, user, lk) == Abort(ValueError)
  {
  }

  // -------------------------------------------------------------- /time

  /** `user["user_id"] == user_id`, raising as the subscript does. */
  function HasId(user: Json, sender: int): (r: Result<bool>)
    ensures r.Ok? <==> user.JObj? && Logger.UserIdKey in user.fields
    ensures r == Ok(true) <==> user.JObj? && Logger.UserIdKey in user.fields && EqualsInt(user.fields[Logger.UserIdKey], sender)
  {
    var id :- Subscript(user, Logger.UserIdKey);
    Ok(EqualsInt(id, sender))
  }

  /** `next((user for user in users if user["user_id"] == sender), None)`. */
  function FindUser(users: seq<Json>, sender: int): (r: Result<Option<Json>>)
    ensures r.Ok? && r.value.Some? ==> r.value.value in users && HasId(r.value.value, sender) == Ok(true)
    decreases |users|
  {
    if |users| == 0 then Ok(None)
    else
      var isSender :- HasId(users[0], sender);
      if isSender then Ok(Some(users[0])) else FindUser(users[1..], sender)
  }

  /** The search returns the first record whose id is the sender's. */
  lemma {:induction false} FindUserFindsFirst(users: seq<Json>, sender: int, k: nat)
    requires k < |users| && HasId(users[k], sender) == Ok(true)
    requires forall j | 0 <= j < k :: HasId(users[j], sender) == Ok(false)
    ensures FindUser(users, sender) == Ok(Some(users[k]))
    decreases k
  {
    if k > 0 {
      FindUserFindsFirst(users[1..], sender, k - 1);
    }
  }

  /** The search finds nothing exactly when every record has an id and none
      is the sender's. */
  lemma {:induction false} FindUserFindsNothing(users: seq<Json>, sender: int)
    ensures FindUser(users, sender) == Ok(None)
            <==> forall j | 0 <= j < |users| :: HasId(users[j], sender) == Ok(false)
    decreases |users|
  {
    if |users| > 0 {
      FindUserFindsNothing(users[1..], sender);
      if forall j | 0 <= j < |users[1..]| :: HasId(users[1..][j], sender) == Ok(false) {
        assert forall j | 1 <= j < |users| :: HasId(users[j], sender) == Ok(false) by {
          forall j | 1 <= j < |users| ensures HasId(users[j], sender) == Ok(false) {
            assert users[j] == users[1..][j - 1];
          }
        }
      }
    }
  }

  /** A record without an id (or not a dict) before any match makes the
      search raise. */
  lemma {:induction false} FindUserRaises(users: seq<Json>, sender: int, k: nat)
    requires k < |users| && HasId(users[k], sender).Err?
    requires forall j | 0 <= j < k :: HasId(users[j], sender) == Ok(false)
    ensures FindUser(users, sender) == Err(HasId(users[k], sender).failure)
    decreases k
  {
    if k > 0 {
      FindUserRaises(users[1..], sender, k - 1);
    }
  }

  /** What `time_handler` answers. */
  datatype TimeReply = CurrentTimeIn(city: Json, currentTime: string) | NotRegistered

  /** `time_handler`: the current time in the city of the sender's first
      registration, or the "haven't set your city" answer. */
  function TimeCommand(file: Option<Json>, sender: int, currentTime: Json -> string): (r: Result<TimeReply>)
    ensures LoadUsers(file).Err? ==> r == Err(LoadUsers(file).failure)
    ensures r == Ok(NotRegistered) <==>
      && LoadUsers(file).Ok?
      && forall j | 0 <= j < |LoadUsers(file).value| :: HasId(LoadUsers(file).value[j], sender) == Ok(false)
  {
    var users :- LoadUsers(file);
    FindUserFindsNothing(users, sender);
    var found :- FindUser(users, sender);
    match found
    case None => Ok(NotRegistered)
    case Some(user) =>
      var city :- Subscript(user, "city");
      Ok(CurrentTimeIn(city, currentTime(city)))
  }

  /** When the sender's first registration is record `k`, `/time` reports
      the current time in that record's city. */
  lemma TimeCommandUsesFirstMatch(file: Option<Json>, sender: int, currentTime: Json -> string, k: nat)
    requires LoadUsers(file).Ok?
    requires var users := LoadUsers(file).value;
      && k < |users| && HasId(users[k], sender) == Ok(true)
      && forall j | 0 <= j < k :: HasId(users[j], sender) == Ok(false)
    ensures var user := LoadUsers(file).value[k];
      TimeCommand(file, sender, currentTime)
        == match Subscript(user, "city")
           case Ok(city) => Ok(CurrentTimeIn(city, currentTime(city)))
           case Err(e) => Err(e)
  {
    FindUserFindsFirst(LoadUsers(file).value, sender, k);
  }

  /** A record without an id, or one that is not a dict, ahead of the
      sender's first registration makes `/time` raise. */
  lemma TimeCommandRaises(file: Option<Json>, sender: int, currentTime: Json -> string, k: nat)
    requires LoadUsers(file).Ok?
    requires var users := LoadUsers(file).value;
      && k < |users| && HasId(users[k], sender).Err?
      && forall j | 0 <= j < k :: HasId(users[j], sender) == Ok(false)
    ensures TimeCommand(file, sender, currentTime) == Err(HasId(LoadUsers(file).value[k], sender).failure)
  {
    FindUserRaises(LoadUsers(file).value, sender, k);
  }
}
