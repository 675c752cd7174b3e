/** `logger.py`: the registrations file and `log_user`, which appends one
    registration to it.

    The file is a JSON document `{"users": [...]}`. Its contents are held as
    `Option<Json>`: `None` stands for a file that does not exist or does not
    decode as JSON, the two cases `log_user` catches. */
module Logger {
  import opened Values

  const UsersKey := "users"
  const UserIdKey := "user_id"

  /** `{"users": []}`, what `log_user` starts from when the file cannot be read. */
  function EmptyDocument(): Json
  {
    JObj(map[UsersKey := JArr([])])
  }

  /** The registration list of a document that has one: a dict whose
      `"users"` entry is a list. */
  function UsersOf(doc: Json): Option<seq<Json>>
  {
    if doc.JObj? && UsersKey in doc.fields && doc.fields[UsersKey].JArr?
    then Some(doc.fields[UsersKey].items)
    else None
  }

  /** The document `log_user` works on: the file's document, or the empty
      document when the file is missing or undecodable. */
  function LoadOrEmpty(file: Option<Json>): (doc: Json)
    ensures file.None? ==> UsersOf(doc) == Some([]) && doc.fields.Keys == {UsersKey}
    ensures file.Some? ==> doc == file.value
  {
    match file
    case None => EmptyDocument()
    case Some(d) => d
  }

  /** `city_country["user_id"] = user_id`: the record carries the given id
      whatever it held before, and its other entries are kept. */
  function Stamp(record: map<string, Json>, userId: int): (r: map<string, Json>)
    ensures r.Keys == record.Keys + {UserIdKey}
    ensures r[UserIdKey] == JInt(userId)
    ensures forall k | k in record && k != UserIdKey :: r[k] == record[k]
  {
    record[UserIdKey := JInt(userId)]
  }

  /** `data["users"].append(record)`. A document that is not a dict raises
      TypeError, a dict without `"users"` raises KeyError, and a `"users"`
      entry that is not a list raises AttributeError. On success the list
      has grown by exactly the record at its end, and every other entry of
      the document is as it was. */
  function AppendUser(doc: Json, record: Json): (r: Result<Json>)
    ensures r.Ok? <==> UsersOf(doc).Some?
    ensures r.Ok? ==> UsersOf(r.value) == Some(UsersOf(doc).value + [record])
    ensures r.Ok? ==> r.value.fields.Keys == doc.fields.Keys
    ensures r.Ok? ==> forall k | k in doc.fields && k != UsersKey :: r.value.fields[k] == doc.fields[k]
    ensures doc.JObj? && UsersKey !in doc.fields ==> r == Err(KeyError(UsersKey))
  {
    match doc
    case JObj(fields) =>
      if UsersKey !in fields then Err(KeyError(UsersKey))
      else
        (match fields[UsersKey]
         case JArr(users) => Ok(JObj(fields[UsersKey := JArr(users + [record])]))
         case _ => Err(AttributeError))
    case _ => Err(TypeError)
  }

  /** The document `log_user(user_id, city_country)` writes, or the exception
      it raises instead of writing. It writes exactly when the file is
      missing or undecodable or its document has a `users` list, and the
      list written is the old one with the stamped record at its end. */
  function Logged(file: Option<Json>, userId: int, cityCountry: map<string, Json>): (r: Result<Json>)
    ensures r.Ok? <==> file.None? || UsersOf(file.value).Some?
    ensures r.Ok? ==> UsersOf(r.value) == Some(UsersOf(LoadOrEmpty(file)).value + [JObj(Stamp(cityCountry, userId))])
  {
    AppendUser(LoadOrEmpty(file), JObj(Stamp(cityCountry, userId)))
  }

  /** A missing or undecodable file is replaced by a document holding just
      the new registration. */
  lemma LoggingToUnreadableFile(userId: int, cityCountry: map<string, Json>)
    ensures Logged(None, userId, cityCountry)
            == Ok(JObj(map[UsersKey := JArr([JObj(Stamp(cityCountry, userId))])]))
  {
    var record := JObj(Stamp(cityCountry, userId));
    assert [] + [record] == [record];
    var fields := EmptyDocument().fields[UsersKey := JArr([record])];
    assert fields.Keys == {UsersKey};
    assert fields == map[UsersKey := JArr([record])];
  }

  /** The number of registrations carrying a given id. */
  function CountId(users: seq<Json>, userId: int): nat
    decreases |users|
  {
    if |users| == 0 then 0
    else (if Subscript(users[|users| - 1], UserIdKey) == Ok(JInt(userId)) then 1 else 0)
         + CountId(users[..|users| - 1], userId)
  }

  /** `log_user` does not look for an existing registration: every call that
      writes adds one more record with the id, so registering twice leaves
      two records for the same user. */
  lemma {:induction false} LoggingTwiceKeepsBoth(file: Option<Json>, userId: int, first: map<string, Json>, second: map<string, Json>)
    requires Logged(file, userId, first).Ok?
    ensures var once := Logged(file, userId, first).value;
      && Logged(Some(once), userId, second).Ok?
      && var twice := Logged(Some(once), userId, second).value;
         && |UsersOf(twice).value| == |UsersOf(LoadOrEmpty(file)).value| + 2
         && CountId(UsersOf(twice).value, userId) == CountId(UsersOf(LoadOrEmpty(file)).value, userId) + 2
  {
    var users := UsersOf(LoadOrEmpty(file)).value;
    var r1 := JObj(Stamp(first, userId));
    var r2 := JObj(Stamp(second, userId));
    var once := Logged(file, userId, first).value;
    assert UsersOf(once) == Some(users + [r1]);
    var twice := Logged(Some(once), userId, second).value;
    assert UsersOf(twice) == Some(users + [r1] + [r2]);
    assert (users + [r1] + [r2])[..|users| + 1] == users + [r1];
    assert (users + [r1])[..|users|] == users;
  }

  /** The registrations file. */
  class UserStore {
    var file: Option<Json>

    constructor(file: Option<Json>)
      ensures this.file == file
    {
      this.file := file;
    }

    /** `log_user(user_id, city_country)`. It reads the file (a missing or
        undecodable file counts as `{"users": []}`), stamps the id onto the
        caller's record, appends the record and overwrites the file with the
        whole document. `stamped` is the caller's record after the stamp,
        which happens before the append can raise; `raised` is the exception
        that escapes, in which case nothing is written. */
    method LogUser(userId: int, cityCountry: map<string, Json>) returns (stamped: map<string, Json>, raised: Option<Failure>)
      modifies this
      ensures stamped == Stamp(cityCountry, userId)
      ensures var r := Logged(old(file), userId, cityCountry);
        && raised == (if r.Ok? then None else Some(r.failure))
        && file == (if r.Ok? then Some(r.value) else old(file))
    {
      var data: Json;
      match file {
        case None => data := EmptyDocument();
        case Some(d) => data := d;
      }
      stamped := cityCountry[UserIdKey := JInt(userId)];
      var appended := AppendUser(data, JObj(stamped));
      if appended.Err? {
        raised := Some(appended.failure);
        return;
      }
      file := Some(appended.value);
      raised := None;
    }
  }
}
