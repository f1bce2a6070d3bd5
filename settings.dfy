/**
 * System settings: reading one value by key, the three settings other code
 * consults, and the bulk update that the server action `updateSettings` and
 * `PUT /api/admin/settings` perform in one transaction.
 */
module Settings {
  import opened Wrappers
  import opened Text
  import opened Domain

  const AllRequestsVisibleKey := "ALLOW_ALL_REQUESTS_VISIBLE"
  const MaxRequestQuantityKey := "MAX_REQUEST_QUANTITY"
  const LowStockThresholdKey := "LOW_STOCK_THRESHOLD_WARNING"

  const DefaultMaxRequestQuantity := 100
  const DefaultLowStockThreshold := 5

  /** `getSystemSetting`: the value stored under a key, if a setting has that key. */
  function SettingValue(settings: map<Id, Setting>, key: string): (r: Option<string>)
    requires SettingsConsistent(settings)
    ensures r.None? <==> forall k :: k in settings ==> settings[k].key != key
    ensures forall k :: k in settings && settings[k].key == key ==> r == Some(settings[k].value)
  {
    if exists k :: k in settings && settings[k].key == key then
      var k :| k in settings && settings[k].key == key;
      Some(settings[k].value)
    else None
  }

  /** `shouldShowAllRequests`: only the exact text "true" turns visibility on. */
  function ShowAllRequests(settings: map<Id, Setting>): (r: bool)
    requires SettingsConsistent(settings)
    ensures r <==> exists k :: k in settings && settings[k].key == AllRequestsVisibleKey && settings[k].value == "true"
  {
    SettingValue(settings, AllRequestsVisibleKey) == Some("true")
  }

  /**
   * An integer setting: a missing or empty value gives the default; any other
   * value is read with `parseInt(value, 10)`, where `None` stands for `NaN`.
   */
  function IntSetting(settings: map<Id, Setting>, key: string, default: int): (r: Option<int>)
    requires SettingsConsistent(settings)
  {
    var value := SettingValue(settings, key);
    if Truthy(value) then ParseInt(value.value) else Some(default)
  }

  /** `getMaxRequestQuantity`. */
  function MaxRequestQuantity(settings: map<Id, Setting>): Option<int>
    requires SettingsConsistent(settings)
  {
    IntSetting(settings, MaxRequestQuantityKey, DefaultMaxRequestQuantity)
  }

  /** `getLowStockThreshold`. */
  function LowStockThreshold(settings: map<Id, Setting>): Option<int>
    requires SettingsConsistent(settings)
  {
    IntSetting(settings, LowStockThresholdKey, DefaultLowStockThreshold)
  }

  /** Without a non-empty value under the key, an integer setting is its default. */
  lemma IntSettingDefault(settings: map<Id, Setting>, key: string, default: int)
    requires SettingsConsistent(settings)
    requires forall k :: k in settings && settings[k].key == key ==> settings[k].value == ""
    ensures IntSetting(settings, key, default) == Some(default)
  {
  }

  /** An integer written in decimal under a key is read back as that integer. */
  lemma IntSettingReadsBack(settings: map<Id, Setting>, key: string, default: int, k: Id, n: int)
    requires SettingsConsistent(settings)
    requires k in settings && settings[k].key == key && settings[k].value == ShowInt(n)
    ensures IntSetting(settings, key, default) == Some(n)
  {
    ParseIntShowInt(n);
  }

  /** A value that does not start with a digit, a sign or a space reads as `NaN`. */
  lemma IntSettingNotANumber(settings: map<Id, Setting>, key: string, default: int, k: Id)
    requires SettingsConsistent(settings)
    requires k in settings && settings[k].key == key
    requires var v := settings[k].value;
      v != [] && !IsDigit(v[0]) && !IsSpace(v[0]) && v[0] != '-' && v[0] != '+'
    ensures IntSetting(settings, key, default) == None
  {
    ParseIntNoDigit(settings[k].value);
  }

  /** One row of the bulk update; only `id` and `value` are used. */
  datatype SettingInput = SettingInput(id: string, key: string, value: string, description: string)

  /** The updates applied in order; each sets the value of the setting with its id. */
  function ApplyValues(settings: map<Id, Setting>, updates: seq<SettingInput>): (r: map<Id, Setting>)
    ensures r.Keys == settings.Keys
  {
    if updates == [] then settings
    else
      var u := updates[0];
      var next := if u.id in settings then settings[u.id := settings[u.id].(value := u.value)] else settings;
      ApplyValues(next, updates[1..])
  }

  /** The value the last update for `id` sets, if any does. */
  function LastValue(updates: seq<SettingInput>, id: Id): Option<string> {
    if updates == [] then None
    else match LastValue(updates[1..], id)
      case Some(v) => Some(v)
      case None => if updates[0].id == id then Some(updates[0].value) else None
  }

  /**
   * The bulk update changes only values: every setting keeps its id, key and
   * description, takes the value of the last update naming it, and keeps its
   * value when none does.
   */
  lemma {:induction false} ApplyValuesSpec(settings: map<Id, Setting>, updates: seq<SettingInput>)
    ensures forall k :: k in settings ==>
      ApplyValues(settings, updates)[k] == settings[k].(value := LastValue(updates, k).GetOr(settings[k].value))
  {
    if updates != [] {
      var u := updates[0];
      var next := if u.id in settings then settings[u.id := settings[u.id].(value := u.value)] else settings;
      ApplyValuesSpec(next, updates[1..]);
    }
  }

  /** Every update names an existing setting; otherwise the transaction fails as a whole. */
  predicate AllIdsExist(settings: map<Id, Setting>, updates: seq<SettingInput>) {
    forall i :: 0 <= i < |updates| ==> updates[i].id in settings
  }

  /** Shared core of the bulk update: all or nothing, then one audit entry. */
  function UpdateSettingsCore(db: Db, adminId: Id, updates: seq<SettingInput>): (r: Applied)
    ensures r.outcome == Done <==> AllIdsExist(db.settings, updates)
    ensures r.outcome != Done ==> r == Applied(db, Refused(StoreError))
    ensures r.outcome == Done ==>
      && r.db.settings == ApplyValues(db.settings, updates)
      && r.db.audit == db.audit + [Entry(adminId, SettingsUpdatedText)]
      && r.db.supplies == db.supplies && r.db.requests == db.requests && r.db.users == db.users
      && r.db.notifications == db.notifications
  {
    if !AllIdsExist(db.settings, updates) then Applied(db, Refused(StoreError))
    else Applied(db.(settings := ApplyValues(db.settings, updates),
                     audit := db.audit + [Entry(adminId, SettingsUpdatedText)]),
                 Done)
  }

  /** Server action `updateSettings`. */
  function UpdateSettingsAction(db: Db, session: Option<Session>, updates: seq<SettingInput>): (r: ActionReply)
    ensures r.result == Success <==> IsAdmin(session) && AllIdsExist(db.settings, updates)
    ensures r.result.Failure? ==> r == ActionReply(db, Failure(Message("Failed to update settings")))
    ensures r.result == Success ==> r.db == UpdateSettingsCore(db, session.value.userId, updates).db
  {
    if !IsAdmin(session) then ActionReply(db, Failure(Message("Failed to update settings")))
    else
      var applied := UpdateSettingsCore(db, session.value.userId, updates);
      if applied.outcome == Done then ActionReply(applied.db, Success)
      else ActionReply(db, Failure(Message("Failed to update settings")))
  }

  /** Route `PUT /api/admin/settings`; `body` is `None` when the JSON is not an array of settings. */
  function PutSettings(db: Db, session: Option<Session>, body: Option<seq<SettingInput>>): (r: HttpReply)
    ensures !IsAdmin(session) ==> r == HttpReply(db, HttpUnauthorized)
    ensures IsAdmin(session) && body.None? ==> r == HttpReply(db, HttpBadRequest)
    ensures IsAdmin(session) && body.Some? && !AllIdsExist(db.settings, body.value) ==> r == HttpReply(db, HttpServerError)
    ensures r.status == HttpOk <==> IsAdmin(session) && body.Some? && AllIdsExist(db.settings, body.value)
    ensures r.status != HttpOk ==> r.db == db
    ensures r.status == HttpOk ==> r.db == UpdateSettingsCore(db, session.value.userId, body.value).db
  {
    if !IsAdmin(session) then HttpReply(db, HttpUnauthorized)
    else if body.None? then HttpReply(db, HttpBadRequest)
    else
      var applied := UpdateSettingsCore(db, session.value.userId, body.value);
      HttpReply(applied.db, if applied.outcome == Done then HttpOk else HttpServerError)
  }

  /** The bulk update keeps every setting's id and key, so keys stay unique. */
  lemma UpdateSettingsCoreKeeps(db: Db, adminId: Id, updates: seq<SettingInput>)
    requires Consistent(db)
    ensures Consistent(UpdateSettingsCore(db, adminId, updates).db)
    ensures Evolves(db, UpdateSettingsCore(db, adminId, updates).db)
  {
    ApplyValuesSpec(db.settings, updates);
  }

  lemma UpdateSettingsActionKeeps(db: Db, session: Option<Session>, updates: seq<SettingInput>)
    requires Consistent(db)
    ensures Consistent(UpdateSettingsAction(db, session, updates).db)
    ensures Evolves(db, UpdateSettingsAction(db, session, updates).db)
  {
    if IsAdmin(session) {
      UpdateSettingsCoreKeeps(db, session.value.userId, updates);
    }
  }

  lemma PutSettingsKeeps(db: Db, session: Option<Session>, body: Option<seq<SettingInput>>)
    requires Consistent(db)
    ensures Consistent(PutSettings(db, session, body).db)
    ensures Evolves(db, PutSettings(db, session, body).db)
  {
    if IsAdmin(session) && body.Some? {
      UpdateSettingsCoreKeeps(db, session.value.userId, body.value);
    }
  }
}
