/** The database gateway: it reads its connection settings from the
    environment once, creates each Supabase client lazily and caches it, and
    turns each operation on entries, reminders and per-user context into one
    query against the store. */
module Database {
  import opened Wrappers
  import opened DateTimes
  import opened Supabase

  /** A connected client: the URL and the key it was created with. */
  datatype Client = Client(url: string, key: string)

  const AnonSettingsError := "SUPABASE_URL and SUPABASE_ANON_KEY must be set"
  const UrlSettingError := "SUPABASE_URL must be set"
  const ServiceKeySettingError := "SUPABASE_SERVICE_KEY must be set for global_context modifications"

  /** `os.getenv(name)`. */
  function Getenv(env: map<string, string>, name: string): Option<string>
  {
    if name in env then Some(env[name]) else None
  }

  /** A setting Python treats as false: unset, or the empty string. */
  predicate Missing(v: Option<string>) {
    v.None? || v.value == ""
  }

  /** The outcome of creating the anon client from the settings. */
  function AnonClient(url: Option<string>, key: Option<string>): Result<Client, string>
  {
    if Missing(url) || Missing(key) then Failure(AnonSettingsError) else Success(Client(url.value, key.value))
  }

  /** The outcome of creating the service client from the settings: the URL
      is checked before the service key. */
  function ServiceClient(url: Option<string>, serviceKey: Option<string>): Result<Client, string>
  {
    if Missing(url) then Failure(UrlSettingError)
    else if Missing(serviceKey) then Failure(ServiceKeySettingError)
    else Success(Client(url.value, serviceKey.value))
  }

  /** The two error messages tell the caller which setting is absent. */
  lemma ServiceClientErrorsDiffer(url: Option<string>, serviceKey: Option<string>)
    ensures ServiceClient(url, serviceKey).Failure? ==>
      (ServiceClient(url, serviceKey).error == UrlSettingError <==> Missing(url))
  {
  }

  /** A Python `Optional[str]` column value. */
  function OptText(o: Option<string>): Value
  {
    match o
    case None => Null
    case Some(s) => Text(s)
  }

  /** An embedding Python treats as true: present and not empty. */
  predicate HasEmbedding(embedding: Option<seq<real>>) {
    embedding.Some? && |embedding.value| > 0
  }

  /** The row `create_entry` inserts. */
  function EntryData(userId: string, content: string, intent: string, summary: Option<string>,
                     category: Option<string>, embedding: Option<seq<real>>): (r: Row)
    ensures r.Keys == {"user_id", "content", "intent", "summary", "category"}
                      + (if HasEmbedding(embedding) then {"embedding"} else {})
    ensures r["user_id"] == Text(userId) && r["content"] == Text(content) && r["intent"] == Text(intent)
    ensures r["summary"] == OptText(summary) && r["category"] == OptText(category)
    ensures "embedding" in r <==> HasEmbedding(embedding)
    ensures "embedding" in r ==> r["embedding"] == Vector(embedding.value)
  {
    var base := map["user_id" := Text(userId), "content" := Text(content), "intent" := Text(intent),
                    "summary" := OptText(summary), "category" := OptText(category)];
    if HasEmbedding(embedding) then base["embedding" := Vector(embedding.value)] else base
  }

  /** The row `create_reminder` inserts; the due date is stored in ISO 8601. */
  function ReminderData(entryId: string, dueDate: DateTime, status: string): (r: Row)
    ensures r.Keys == {"entry_id", "due_date", "status"}
    ensures r["entry_id"] == Text(entryId) && r["status"] == Text(status)
    ensures r["due_date"] == Text(IsoFormat(dueDate))
  {
    map["entry_id" := Text(entryId), "due_date" := Text(IsoFormat(dueDate)), "status" := Text(status)]
  }

  /** The stored reminder determines the entry, the due date and the status
      it was created with. */
  lemma ReminderDataInjective(e1: string, d1: DateTime, s1: string, e2: string, d2: DateTime, s2: string)
    requires Valid(d1) && Valid(d2)
    requires ReminderData(e1, d1, s1) == ReminderData(e2, d2, s2)
    ensures e1 == e2 && d1 == d2 && s1 == s2
  {
    assert ReminderData(e1, d1, s1)["due_date"] == ReminderData(e2, d2, s2)["due_date"];
    IsoFormatInjective(d1, d2);
  }

  /** The row `set_global_context` upserts. */
  function ContextData(userId: string, key: string, value: string, description: Option<string>): (r: Row)
    ensures ContextRow(r)
    ensures r.Keys == {"user_id", "key", "value", "description"}
    ensures Field(r, "user_id") == userId && Field(r, "key") == key && Field(r, "value") == value
    ensures r["description"] == OptText(description)
  {
    map["user_id" := Text(userId), "key" := Text(key), "value" := Text(value),
        "description" := OptText(description)]
  }

  /** After `set_global_context(u, k, v)`, `get_global_context(u, k)` finds
      `v` and `get_all_global_context(u)` maps `k` to `v`. */
  lemma {:induction false} SetThenGet(rows: seq<Row>, userId: string, key: string, value: string,
                                      description: Option<string>, n: nat)
    requires ContextRows(rows) && UniqueSlots(rows)
    ensures var data := ContextData(userId, key, value, description);
      var after := Upsert(rows, data, Stamped(data, n));
      && LookupContext(after, userId, key) == Some(value)
      && key in UserContext(after, userId) && UserContext(after, userId)[key] == value
  {
    var data := ContextData(userId, key, value, description);
    var inserted := Stamped(data, n);
    UpsertWellFormed(rows, data, inserted);
    UpsertContext(rows, data, inserted, userId);
    UserContextAgreesWithLookup(Upsert(rows, data, inserted), userId, key);
  }

  /** After `delete_global_context(u, k)`, `get_global_context(u, k)` finds
      nothing and `get_all_global_context(u)` has no `k`. */
  lemma {:induction false} DeleteThenGet(rows: seq<Row>, userId: string, key: string)
    requires ContextRows(rows) && UniqueSlots(rows)
    ensures LookupContext(DeleteSlot(rows, userId, key), userId, key) == None
    ensures key !in UserContext(DeleteSlot(rows, userId, key), userId)
  {
    DeleteSlotSub(rows, userId, key);
    DeleteSlotContext(rows, userId, key, userId);
    UserContextAgreesWithLookup(DeleteSlot(rows, userId, key), userId, key);
  }

  class DatabaseService {
    const supabaseUrl: Option<string>
    const supabaseKey: Option<string>
    const supabaseServiceKey: Option<string>
    var client: Option<Client>
    var serviceClient: Option<Client>
    /** Every client created so far, anon and service respectively. */
    ghost var clientsCreated: seq<Client>
    ghost var serviceClientsCreated: seq<Client>
    /** The database every client talks to. */
    const store: Store

    /** Each cached client is the one the settings give, and it is the only
        one ever created. */
    ghost predicate Valid()
      reads this, store
    {
      && store.Valid()
      && (client.None? ==> clientsCreated == [])
      && (client.Some? ==>
            clientsCreated == [client.value] && AnonClient(supabaseUrl, supabaseKey) == Success(client.value))
      && (serviceClient.None? ==> serviceClientsCreated == [])
      && (serviceClient.Some? ==>
            serviceClientsCreated == [serviceClient.value]
            && ServiceClient(supabaseUrl, supabaseServiceKey) == Success(serviceClient.value))
    }

    constructor (env: map<string, string>, store: Store)
      requires store.Valid()
      ensures Valid()
      ensures this.store == store
      ensures supabaseUrl == Getenv(env, "SUPABASE_URL")
      ensures supabaseKey == Getenv(env, "SUPABASE_ANON_KEY")
      ensures supabaseServiceKey == Getenv(env, "SUPABASE_SERVICE_KEY")
      ensures client == None && serviceClient == None
    {
      supabaseUrl := Getenv(env, "SUPABASE_URL");
      supabaseKey := Getenv(env, "SUPABASE_ANON_KEY");
      supabaseServiceKey := Getenv(env, "SUPABASE_SERVICE_KEY");
      client := None;
      serviceClient := None;
      clientsCreated := [];
      serviceClientsCreated := [];
      this.store := store;
    }

    /** What `get_client` does to the service: the anon client is cached
        once created, a cached client is reused without creating another,
        and the service client is left alone. */
    twostate predicate AnonClientStep()
      reads this
    {
      && client == (if AnonClient(supabaseUrl, supabaseKey).Success?
                    then Some(AnonClient(supabaseUrl, supabaseKey).value) else None)
      && (old(client).Some? ==> clientsCreated == old(clientsCreated))
      && serviceClient == old(serviceClient) && serviceClientsCreated == old(serviceClientsCreated)
    }

    method GetClient() returns (r: Result<Client, string>)
      requires Valid()
      modifies this
      ensures Valid() && AnonClientStep()
      ensures r == AnonClient(supabaseUrl, supabaseKey)
    {
      if client.None? {
        if Missing(supabaseUrl) || Missing(supabaseKey) {
          return Failure(AnonSettingsError);
        }
        client := Some(Client(supabaseUrl.value, supabaseKey.value));
        clientsCreated := clientsCreated + [client.value];
      }
      r := Success(client.value);
    }

    method GetServiceClient() returns (r: Result<Client, string>)
      requires Valid()
      modifies this
      ensures Valid()
      ensures r == ServiceClient(supabaseUrl, supabaseServiceKey)
      ensures serviceClient == (if r.Success? then Some(r.value) else None)
      ensures old(serviceClient).Some? ==> serviceClientsCreated == old(serviceClientsCreated)
      ensures client == old(client) && clientsCreated == old(clientsCreated)
    {
      if serviceClient.None? {
        if Missing(supabaseUrl) {
          return Failure(UrlSettingError);
        }
        if Missing(supabaseServiceKey) {
          return Failure(ServiceKeySettingError);
        }
        serviceClient := Some(Client(supabaseUrl.value, supabaseServiceKey.value));
        serviceClientsCreated := serviceClientsCreated + [serviceClient.value];
      }
      r := Success(serviceClient.value);
    }

    /** `create_entry`: on success the entries table gains exactly the built
        row, stamped, and that row is returned. */
    method CreateEntry(userId: string, content: string, intent: string := "NOTE",
                       summary: Option<string> := None, category: Option<string> := None,
                       embedding: Option<seq<real>> := None)
      returns (r: Result<Row, string>)
      requires Valid()
      modifies this, store
      ensures Valid() && AnonClientStep()
      ensures AnonClient(supabaseUrl, supabaseKey).Failure? ==>
        r == Failure(AnonSettingsError) && unchanged(store)
      ensures AnonClient(supabaseUrl, supabaseKey).Success? ==>
        && r == Success(Stamped(EntryData(userId, content, intent, summary, category, embedding), old(store.serial)))
        && store.entries == old(store.entries) + [r.value]
        && store.serial == old(store.serial) + 1
        && store.reminders == old(store.reminders) && store.globalContext == old(store.globalContext)
    {
      var entryData := map["user_id" := Text(userId), "content" := Text(content), "intent" := Text(intent),
                           "summary" := OptText(summary), "category" := OptText(category)];
      if embedding.Some? && |embedding.value| > 0 {
        entryData := entryData["embedding" := Vector(embedding.value)];
      }
      var c := GetClient();
      if c.Failure? {
        return Failure(c.error);
      }
      var rows := store.InsertEntry(entryData);
      r := Success(FirstOrEmpty(rows));
    }

    /** `get_entries`: what the filtered, ordered, paged query answers. */
    method GetEntries(userId: string, intent: Option<string> := None, limit: nat := 100, offset: nat := 0)
      returns (r: Result<seq<Row>, string>)
      requires Valid()
      modifies this
      ensures Valid() && AnonClientStep()
      ensures AnonClient(supabaseUrl, supabaseKey).Failure? ==> r == Failure(AnonSettingsError)
      ensures AnonClient(supabaseUrl, supabaseKey).Success? ==>
        r == Success(EntriesQuery(store.entries, userId, intent, offset, limit))
    {
      var c := GetClient();
      if c.Failure? {
        return Failure(c.error);
      }
      var query := Where(store.entries, "user_id", Text(userId));
      if intent.Some? && intent.value != "" {
        query := Where(query, "intent", Text(intent.value));
      }
      var ordered := SortDesc(query);
      r := Success(Window(ordered, offset, limit));
    }

    /** `get_entry`: the first row with that id, or none. */
    method GetEntry(entryId: string) returns (r: Result<Option<Row>, string>)
      requires Valid()
      modifies this
      ensures Valid() && AnonClientStep()
      ensures AnonClient(supabaseUrl, supabaseKey).Failure? ==> r == Failure(AnonSettingsError)
      ensures AnonClient(supabaseUrl, supabaseKey).Success? ==>
        r == Success(FirstOrNone(Where(store.entries, "id", Text(entryId))))
      ensures r.Success? ==>
        (r.value.None? <==> forall i :: 0 <= i < |store.entries| ==> !Matches(store.entries[i], "id", Text(entryId)))
      ensures r.Success? && r.value.Some? ==>
        exists i :: FirstMatch(store.entries, "id", Text(entryId), i) && store.entries[i] == r.value.value
    {
      var c := GetClient();
      if c.Failure? {
        return Failure(c.error);
      }
      WhereHead(store.entries, "id", Text(entryId));
      r := Success(FirstOrNone(Where(store.entries, "id", Text(entryId))));
    }

    /** `update_entry`: the rows with that id take the updates; the first
        updated row, or an empty row, is returned. */
    method UpdateEntry(entryId: string, updates: Row) returns (r: Result<Row, string>)
      requires Valid()
      modifies this, store
      ensures Valid() && AnonClientStep()
      ensures AnonClient(supabaseUrl, supabaseKey).Failure? ==>
        r == Failure(AnonSettingsError) && unchanged(store)
      ensures AnonClient(supabaseUrl, supabaseKey).Success? ==>
        && r == Success(FirstOrEmpty(Updated(old(store.entries), "id", Text(entryId), updates)))
        && store.entries == UpdateWhere(old(store.entries), "id", Text(entryId), updates)
        && store.reminders == old(store.reminders) && store.globalContext == old(store.globalContext)
        && store.serial == old(store.serial)
    {
      var c := GetClient();
      if c.Failure? {
        return Failure(c.error);
      }
      var rows := store.UpdateEntries("id", Text(entryId), updates);
      r := Success(FirstOrEmpty(rows));
    }

    /** `delete_entry`: removes the entry and, through the schema, its
        reminders; answers true whether or not a row matched. */
    method DeleteEntry(entryId: string) returns (r: Result<bool, string>)
      requires Valid()
      modifies this, store
      ensures Valid() && AnonClientStep()
      ensures AnonClient(supabaseUrl, supabaseKey).Failure? ==>
        r == Failure(AnonSettingsError) && unchanged(store)
      ensures AnonClient(supabaseUrl, supabaseKey).Success? ==>
        && r == Success(true)
        && store.entries == Except(old(store.entries), "id", Text(entryId))
        && store.reminders == Except(old(store.reminders), "entry_id", Text(entryId))
        && store.globalContext == old(store.globalContext) && store.serial == old(store.serial)
    {
      var c := GetClient();
      if c.Failure? {
        return Failure(c.error);
      }
      store.DeleteEntry(entryId);
      r := Success(true);
    }

    /** `create_reminder`: on success the reminders table gains exactly the
        built row, stamped, and that row is returned. */
    method CreateReminder(entryId: string, dueDate: DateTime, status: string := "PENDING")
      returns (r: Result<Row, string>)
      requires Valid()
      modifies this, store
      ensures Valid() && AnonClientStep()
      ensures AnonClient(supabaseUrl, supabaseKey).Failure? ==>
        r == Failure(AnonSettingsError) && unchanged(store)
      ensures AnonClient(supabaseUrl, supabaseKey).Success? ==>
        && r == Success(Stamped(ReminderData(entryId, dueDate, status), old(store.serial)))
        && store.reminders == old(store.reminders) + [r.value]
        && store.serial == old(store.serial) + 1
        && store.entries == old(store.entries) && store.globalContext == old(store.globalContext)
    {
      var reminderData := map["entry_id" := Text(entryId), "due_date" := Text(IsoFormat(dueDate)),
                              "status" := Text(status)];
      var c := GetClient();
      if c.Failure? {
        return Failure(c.error);
      }
      var rows := store.InsertReminder(reminderData);
      r := Success(FirstOrEmpty(rows));
    }

    /** `update_reminder`: as `update_entry`, on the reminders table. */
    method UpdateReminder(reminderId: string, updates: Row) returns (r: Result<Row, string>)
      requires Valid()
      modifies this, store
      ensures Valid() && AnonClientStep()
      ensures AnonClient(supabaseUrl, supabaseKey).Failure? ==>
        r == Failure(AnonSettingsError) && unchanged(store)
      ensures AnonClient(supabaseUrl, supabaseKey).Success? ==>
        && r == Success(FirstOrEmpty(Updated(old(store.reminders), "id", Text(reminderId), updates)))
        && store.reminders == UpdateWhere(old(store.reminders), "id", Text(reminderId), updates)
        && store.entries == old(store.entries) && store.globalContext == old(store.globalContext)
        && store.serial == old(store.serial)
    {
      var c := GetClient();
      if c.Failure? {
        return Failure(c.error);
      }
      var rows := store.UpdateReminders("id", Text(reminderId), updates);
      r := Success(FirstOrEmpty(rows));
    }

    /** `get_global_context`: the user's value for the key, if any. */
    method GetGlobalContext(userId: string, key: string) returns (r: Result<Option<string>, string>)
      requires Valid()
      modifies this
      ensures Valid() && AnonClientStep()
      ensures AnonClient(supabaseUrl, supabaseKey).Failure? ==> r == Failure(AnonSettingsError)
      ensures AnonClient(supabaseUrl, supabaseKey).Success? ==>
        r == Success(LookupContext(store.globalContext, userId, key))
      ensures r.Success? ==>
        var m := UserContext(store.globalContext, userId);
        (r.value.Some? <==> key in m) && (key in m ==> r.value.value == m[key])
    {
      var c := GetClient();
      if c.Failure? {
        return Failure(c.error);
      }
      UserContextAgreesWithLookup(store.globalContext, userId, key);
      r := Success(LookupContext(store.globalContext, userId, key));
    }

    /** `set_global_context`: upserts the user's key; afterwards the user's
        map holds the new value for the key, the returned row is the one
        the upsert wrote, the serial advances once, and the other tables stay. */
    method SetGlobalContext(userId: string, key: string, value: string, description: Option<string> := None)
      returns (r: Result<Row, string>)
      requires Valid()
      modifies this, store
      ensures Valid() && AnonClientStep()
      ensures AnonClient(supabaseUrl, supabaseKey).Failure? ==>
        r == Failure(AnonSettingsError) && unchanged(store)
      ensures AnonClient(supabaseUrl, supabaseKey).Success? ==>
        && r.Success?
        && store.globalContext == Upsert(old(store.globalContext), ContextData(userId, key, value, description),
                                         Stamped(ContextData(userId, key, value, description), old(store.serial)))
        && r.value == UpsertedRow(old(store.globalContext), ContextData(userId, key, value, description),
                                  Stamped(ContextData(userId, key, value, description), old(store.serial)))
        && Field(r.value, "user_id") == userId && Field(r.value, "key") == key && Field(r.value, "value") == value
        && UserContext(store.globalContext, userId) == old(UserContext(store.globalContext, userId))[key := value]
        && LookupContext(store.globalContext, userId, key) == Some(value)
        && store.entries == old(store.entries) && store.reminders == old(store.reminders)
        && store.serial == old(store.serial) + 1
    {
      var contextData := map["user_id" := Text(userId), "key" := Text(key), "value" := Text(value),
                             "description" := OptText(description)];
      var c := GetClient();
      if c.Failure? {
        return Failure(c.error);
      }
      UpsertWellFormed(store.globalContext, contextData, Stamped(contextData, store.serial));
      UpsertContext(store.globalContext, contextData, Stamped(contextData, store.serial), userId);
      SetThenGet(store.globalContext, userId, key, value, description, store.serial);
      var rows := store.UpsertContext(contextData);
      r := Success(FirstOrEmpty(rows));
    }

    /** `get_all_global_context`: the user's key→value map, `{}` when the
        user has no rows. */
    method GetAllGlobalContext(userId: string) returns (r: Result<map<string, string>, string>)
      requires Valid()
      modifies this
      ensures Valid() && AnonClientStep()
      ensures AnonClient(supabaseUrl, supabaseKey).Failure? ==> r == Failure(AnonSettingsError)
      ensures AnonClient(supabaseUrl, supabaseKey).Success? ==>
        r == Success(UserContext(store.globalContext, userId))
    {
      var c := GetClient();
      if c.Failure? {
        return Failure(c.error);
      }
      var rows := Where(store.globalContext, "user_id", Text(userId));
      r := Success(if rows != [] then ToDict(rows) else map[]);
    }

    /** `delete_global_context`: the user's key is gone afterwards; answers
        true whether or not a row matched. */
    method DeleteGlobalContext(userId: string, key: string) returns (r: Result<bool, string>)
      requires Valid()
      modifies this, store
      ensures Valid() && AnonClientStep()
      ensures AnonClient(supabaseUrl, supabaseKey).Failure? ==>
        r == Failure(AnonSettingsError) && unchanged(store)
      ensures AnonClient(supabaseUrl, supabaseKey).Success? ==>
        && r == Success(true)
        && store.globalContext == DeleteSlot(old(store.globalContext), userId, key)
        && UserContext(store.globalContext, userId) == old(UserContext(store.globalContext, userId)) - {key}
        && LookupContext(store.globalContext, userId, key) == None
        && store.entries == old(store.entries) && store.reminders == old(store.reminders)
        && store.serial == old(store.serial)
    {
      var c := GetClient();
      if c.Failure? {
        return Failure(c.error);
      }
      DeleteSlotContext(store.globalContext, userId, key, userId);
      DeleteThenGet(store.globalContext, userId, key);
      store.DeleteContext(userId, key);
      r := Success(true);
    }
  }
}
