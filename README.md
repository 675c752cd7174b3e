# Ramadan reminder bot — a Dafny model of its core

The bot is a Telegram bot that registers a user's city and country and
sends a message when the current local time in that city equals the day's
Fajr (dawn prayer) time. This project models the parts of it that decide
things:

- **The registration dialogue** (`main.py`, `start_handler` and
  `message_handler`). It is a class `Bot.Dialogue` holding the in-memory
  maps `user_states` and `user_data`, with one method per event. `/start`
  puts the sender into "waiting for city". The next plain message becomes
  the stripped city. The one after becomes the stripped country; the entry
  is then finished and handed to `log_user`.
- **The registrations file and `log_user`** (`logger.py`). The file is the
  field of the class `Logger.UserStore`. Its contents are `Option<Json>`,
  where `None` is a file that is missing or is not valid JSON. `log_user`
  starts from `{"users": []}` in that case, stamps the id onto the record,
  appends it and overwrites the file.
- **One pass of the reminder loop** (`main.py`, `launch_handler`). The
  method `Bot.Tick` loads the file and walks the records in order. For each
  record it looks up the Fajr time and the current time, compares the
  current `HH:MM` with the Fajr time, and names the recipient on a match.
  `Bot.Run` over `Bot.Steps` is its specification. `launch_handler`
  has no `try`, so the first exception (an unreadable file, a record
  without a city, a Fajr lookup that raises) ends not only the pass but
  the reminder loop itself: no later pass runs until `/launch` is sent
  again. `Bot.UnlocatedCityEndsReminders` shows that one city the
  geocoder cannot place is enough.
- **The `/time` lookup** (`main.py`, `time_handler`): the first record
  whose `user_id` equals the sender.
- **The city lookups** (`date_time_finder.py`). `get_current_time_by_city`
  has four outcomes: a `%Y-%m-%d %H:%M:%S` timestamp, or one of three
  Russian messages. `get_fajr_time` re-reads that timestamp with
  `strptime`, rewrites it as `%d-%m-%Y`, and fetches the timings for that
  date.

Geocoding, the timezone database, the clock and HTTP are foreign calls.
They are parameters of the model: `DateTimeFinder.Services`, the `fetch`
argument of `DateTimeFinder.GetFajrTime`, and `Bot.Lookups`. Each returns
a value or raises with a message.

Python behaviour the model writes out:
- `str.strip()` with Python's whitespace set.
- `split(" ")`, which keeps empty pieces.
- `s[:5]` on short strings.
- Subscripts that raise KeyError or TypeError.
- `.append` on a non-list, which raises AttributeError.
- `bool == int` equality in the `user_id` comparison.
- Iterating an empty dict or string, which yields nothing.

Behaviour a reader might expect that the code does not have:
- A reminder fires on an exact `HH:MM` string match; there is no time
  window.
- No record is kept of reminders already sent, so there is no
  deduplication.
- Registering again appends another record instead of replacing the first
  (`Logger.LoggingTwiceKeepsBoth`).
- A failing record is not skipped: its exception ends the pass
  (`Bot.RunStopsAtFirstAbort`) and with it the reminder loop.
- A missing or unreadable file raises in `/launch` and `/time`; only
  `log_user` recovers from it.

## Model

| member | source | states |
|---|---|---|
| Values.Subscript | main.py:44-45 | `j[key]` succeeds exactly when `j` is a dict holding `key`, and gives that entry; a dict without the key raises KeyError |
| Text.LeadingSpaces | main.py:86 | the number returned is the length of the whitespace run `s` starts with: everything before it is whitespace, and the character at it is not |
| Text.TrailingSpacesStart | main.py:86 | the position returned starts the whitespace run `s` ends with: everything from it on is whitespace, and the character before it is not |
| Text.Strip | main.py:86 | the result is a slice `s[i..j]` with only whitespace before `i` and after `j`, and it neither starts nor ends with whitespace |
| Text.Split | main.py:49 | `split(sep)` yields at least one piece, no piece contains the separator, and joining the pieces with the separator gives the input back |
| Text.SplitOfJoin | main.py:49 | splitting the join of separator-free pieces gives the same pieces back |
| Text.SplitAfterPlainPrefix | main.py:49 | a separator-free prefix is glued onto the first piece and leaves the other pieces alone |
| Text.SplitCutsAtSeparator | main.py:49 | `split(" ")` has a second piece exactly when the string contains a space |
| Text.StartsWith | main.py:78 | `s.startswith(p)` holds exactly when `s` is `p` followed by some rest |
| Text.Take | main.py:49 | `s[:n]` has length `min(len(s), n)` and is a prefix of `s` |
| DateTimeFinder.Pad2Value | date_time_finder.py:19 | the two characters printed for 0..99 are digits that spell the number |
| DateTimeFinder.Pad4Value | date_time_finder.py:19 | the four characters printed for a year are digits that spell the year |
| DateTimeFinder.Pad2OfValue | date_time_finder.py:29 | two digits read as a number are printed back as the same two digits |
| DateTimeFinder.Pad4OfValue | date_time_finder.py:29 | four digits read as a number are printed back as the same four digits |
| DateTimeFinder.FormatTimestamp | date_time_finder.py:19 | what `strftime('%Y-%m-%d %H:%M:%S')` prints always has the shape the matching `strptime` reads |
| DateTimeFinder.FormatDate | date_time_finder.py:29 | `strftime("%d-%m-%Y")` prints two digits, a dash, two digits, a dash and four digits |
| DateTimeFinder.FormatTimestampPieces | date_time_finder.py:19 | `%Y-%m-%d %H:%M:%S` is 19 characters, with each field at its fixed position and the separators between them |
| DateTimeFinder.TimestampHalves | date_time_finder.py:19 | a timestamp is a space-free date, one space, and a space-free time of day that starts with `HH:MM` |
| DateTimeFinder.ParseTimestamp | date_time_finder.py:29 | whatever `strptime` accepts is a real calendar moment |
| DateTimeFinder.ParseFormatted | date_time_finder.py:19-29 | `strptime` reads back exactly the moment `strftime` printed |
| DateTimeFinder.FormattedParsed | date_time_finder.py:29 | a string `strptime` accepts is exactly what `strftime` prints for the parsed moment |
| DateTimeFinder.FormatDateReordersTimestamp | date_time_finder.py:29 | the `%d-%m-%Y` date is the timestamp's day, month and year digits in that order, without the time |
| DateTimeFinder.MessagesDoNotParse | date_time_finder.py:20-25 | none of the three messages has the timestamp shape |
| DateTimeFinder.ResolveCityTime | date_time_finder.py:9-25 | a raising geocoder gives the error outcome; "not found" comes exactly when the geocoder returns nothing; "no timezone" exactly when a place was found and its zone is missing or empty; a raising zone lookup gives the error outcome with its text; with a non-empty zone the outcome is the clock's reading for that zone, or the error outcome when reading the clock raises |
| DateTimeFinder.NoTimezoneMessage | date_time_finder.py:21 | the "no time zone" reply is the fixed prefix, the city name verbatim, and a full stop |
| DateTimeFinder.NoLocationMessage | date_time_finder.py:23 | the "location not found" reply is the fixed prefix, the city name verbatim, and a full stop |
| DateTimeFinder.LookupErrorMessage | date_time_finder.py:24-25 | the error reply is the fixed prefix followed by the exception's text verbatim |
| DateTimeFinder.Render | date_time_finder.py:19-25 | a local time prints in the timestamp shape; the error message starts with `П` and the two not-found messages start with `Н` |
| DateTimeFinder.GetCurrentTimeByCity | date_time_finder.py:8-25 | the result parses as a timestamp exactly when geocoding and the timezone lookup succeeded and the clock was read, and then parses to the clock's local reading; otherwise it is the message for the outcome |
| DateTimeFinder.RenderIsInjective | date_time_finder.py:19-25 | different outcomes give different strings, so the outcome can be read back from the result |
| DateTimeFinder.FajrRequest | date_time_finder.py:30-35 | the URL is the timings endpoint, `/` and the date; the query has exactly `city`, `country` and `method` = 2 |
| DateTimeFinder.FajrEntry | date_time_finder.py:37 | `response['data']['timings']['Fajr']` succeeds exactly when each level is a dict holding the next key, and gives the innermost entry |
| DateTimeFinder.GetFajrTime | date_time_finder.py:27-37 | without a local time the `strptime` step raises ValueError; with one, the request for that local date is sent and the answer is its `data.timings.Fajr`, or the raised error |
| Logger.LoadOrEmpty | logger.py:6-12 | a missing or undecodable file counts as the document with an empty `users` list; otherwise the document is the file's |
| Logger.Stamp | logger.py:14 | the record then holds the given `user_id`, and keeps every other key and value |
| Logger.AppendUser | logger.py:15 | the append succeeds exactly when the document has a `users` list; the list then ends with the record and nothing else changes; a dict without `users` raises KeyError |
| Logger.Logged | logger.py:5-18 | `log_user` writes exactly when the file is missing or undecodable or has a `users` list, and the list written is the old one plus the stamped record at its end |
| Logger.LoggingToUnreadableFile | logger.py:6-18 | logging to a missing or undecodable file writes a document holding only the new record |
| Logger.LoggingTwiceKeepsBoth | logger.py:14-15 | logging the same user twice adds two records with that id; the earlier one is not replaced |
| Logger.UserStore.LogUser | logger.py:5-18 | the caller's record gets the id stamped; the file then holds the appended document, or it is left as it was and the exception is reported |
| Bot.UpdateKeepsInvariant | main.py:84-98 | moving a user to a new state with an entry carrying its id and city, plus a country when finished, keeps the dialogue invariant |
| Bot.Dialogue.constructor | main.py:27-28 | both maps start empty and the invariant holds |
| Bot.Dialogue.Start | main.py:30-34 | the sender is set to waiting for a city whatever its state was; its data and every other user stay as they were |
| Bot.Dialogue.Message | main.py:73-106 | commands, unknown senders and finished users change nothing. The city step stores the id and stripped city and asks for the country. The country step adds the stripped country, finishes the dialogue and logs the entry, with the reply following the outcome of the log. No other user changes, and the invariant holds |
| Bot.Dialogue.AcceptCity | main.py:84-91 | the entry becomes exactly the id and the stripped city, and the state becomes waiting for the country |
| Bot.Dialogue.AcceptCountry | main.py:93-106 | the entry gains the stripped country and the state becomes finished; the file is logged as `log_user` does it; the reply is "Saved" with city and country, or the exception |
| Bot.Register | main.py:30-106 | `/start`, a city and a country on an empty store write a file with exactly one record: the id, the stripped city and the stripped country |
| Bot.LoadUsers | main.py:40-43 | a missing or undecodable file raises; the records load exactly when the document is a dict whose `users` entry is a list (its items), an empty dict or an empty string (nothing); a dict without `users` raises KeyError |
| Bot.MinuteMatches | main.py:49 | the comparison raises IndexError exactly when the current-time string has no space |
| Bot.RecordStep | main.py:44-50 | a record that is not a dict raises TypeError; a record only passes without raising if it has a city, a country and a Fajr time; a failing Fajr lookup raises its error; a reminder goes to the record's `user_id` |
| Bot.Steps | main.py:43-50 | one step per record, in order, each decided by that record's loop body |
| Bot.Run | main.py:43-50 | a pass never messages more recipients than there are records |
| Bot.RunWithoutAbort | main.py:43-50 | with no exception, the pass messages every reminded recipient in record order and no one else |
| Bot.RunStopsAtFirstAbort | main.py:43-50 | the first exception ends the pass, and the loop; only records before it are reminded |
| Bot.RecipientsAreReminded | main.py:43-50 | someone is messaged exactly when some record's step reminds them |
| Bot.Tick | main.py:39-51 | an unloadable file or a bad `users` entry raises before anything is sent; otherwise the pass sends what `Run` of the steps gives, and a `failure` is the exception that ends the reminder loop |
| Bot.UnlocatedCityEndsReminders | main.py:44-46 | a record whose city cannot be geocoded, looked up through `get_fajr_time`, raises ValueError, which ends the reminder loop |
| Bot.MinuteOfTimestamp | main.py:49 | for a timestamp, the compared prefix is exactly its `HH:MM` |
| Bot.RecordFiresAtFajrMinute | main.py:44-50 | a complete record with a Fajr time and a timestamp is reminded exactly when the timestamp's `HH:MM` equals the Fajr time |
| Values.EqualsInt | main.py:64 | `j == n` holds exactly for the int `n`, for `True` when `n` is 1, and for `False` when `n` is 0 |
| Bot.HasId | main.py:64 | the comparison succeeds exactly when the record is a dict with a `user_id`, and is true exactly when that id equals the sender |
| Bot.FindUser | main.py:64 | a record found is one of the records and carries the sender's id |
| Bot.FindUserFindsFirst | main.py:64 | the search returns the first record whose id equals the sender's |
| Bot.FindUserFindsNothing | main.py:64 | the search finds nothing exactly when every record has an id and none equals the sender's |
| Bot.FindUserRaises | main.py:64 | a record before any match that has no id, or is not a dict, makes the search raise |
| Bot.TimeCommand | main.py:58-71 | a file that does not load makes `/time` raise with that error; the "not set your city" reply comes exactly when the file loads and every record has an id other than the sender's |
| Bot.TimeCommandRaises | main.py:64 | a record without an id, or not a dict, ahead of the sender's first record makes `/time` raise |
| Bot.TimeCommandUsesFirstMatch | main.py:64-69 | `/time` reports the current time in the city of the sender's first record |

## Left out

- Telegram transport: receiving events, `respond` and `send_message`. A reply is modelled by what it reports, and a sent reminder by its recipient.
- Sending can fail. A failure of `send_message` is not modelled, so every reminder step is treated as sent.
- The `/ping` endpoint, `.env` loading, client start-up and `client.run_until_disconnected` are not modelled: they decide nothing.
- `help_handler` sends a fixed text and is not modelled.
- The `openai_helper` package and `test.py` are not part of this model.
- The `while True` loop and `time.sleep(60)` of `launch_handler` are not modelled. `Bot.Tick` is one pass. A pass that ends without `failure` is followed by the next one, a minute later, on the file as it then is. A pass that ends with a `failure` ends the loop, and no further pass runs until `/launch` is sent again.
- Handlers running concurrently, and a file read while it is being written, are not modelled.
- Command patterns are regular expressions matched at the start of the text, so `/startx` also triggers `/start`. The model has one method per command and does not decide which handler a text reaches.
- Geocoding, the timezone database, the clock and HTTP are parameters. `Bot.Lookups` leaves open how each record's city and country reach them, because a record's `city` may be any JSON value.
- JSON floats, and the key order and indentation of `json.dump`, are not modelled.
- The console line `log_user` prints after writing is not modelled: it changes no state.
- Read errors other than a missing file or undecodable JSON, and write errors, are not modelled.
- DateTimeFinder.ParseTimestamp: accepts only the zero-padded 19-character form that `strftime` prints. Python's `strptime` also accepts unpadded fields, but it only ever receives `strftime` output or one of the three messages, and the model rejects those messages as `strptime` does.
- DateTimeFinder.FormatTimestamp: prints years with four digits. `%Y` leaves years below 1000 unpadded on some platforms, and those years never occur as current dates.
- Bot.Run: its own contract only bounds the number of recipients. What a pass sends is stated by `Bot.RunWithoutAbort`, `Bot.RunStopsAtFirstAbort` and `Bot.RecipientsAreReminded`.
