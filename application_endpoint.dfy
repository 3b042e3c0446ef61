/**
 * The application endpoint: the update handler writes one change-log entry per
 * requested field change (in request order) and then updates the application,
 * its tags and its aliases; the registration handler registers the
 * application and then writes one change-log entry addressed to the new id;
 * the by-ids query answers an empty id list itself, without asking the
 * application service.
 *
 * The application and change-log services are foreign code. They are modelled
 * by `Services`, whose state is the append-only change log and the trace of
 * every call made to them; what a foreign query or registration answers is a
 * parameter.
 */
module ApplicationEndpoint {
  import opened Wrappers

  datatype EntityKind = APPLICATION | ORG_UNIT | DATA_TYPE | CHANGE_INITIATIVE

  datatype EntityReference = EntityReference(kind: EntityKind, id: int)

  datatype Severity = INFORMATION | WARNING | ERROR

  /** One change-log (audit) record. */
  datatype ChangeLog = ChangeLog(
    message: string,
    severity: Severity,
    userId: string,
    parentReference: EntityReference)

  /** The application as the update request carries it; its id is absent until it is persisted. */
  datatype Application = Application(id: Option<int>, name: string)

  /** One requested field change; its text for the log is given by the `describe` parameter. */
  datatype FieldChange = FieldChange(field: string, oldValue: string, newValue: string)

  /** The body of an update request. */
  datatype AppChangeAction = AppChangeAction(
    app: Application,
    changes: seq<FieldChange>,
    tags: seq<string>,
    aliases: seq<string>)

  datatype AppRegistrationRequest = AppRegistrationRequest(name: string)

  /** What registration answers; its id may be absent. */
  datatype AppRegistrationResponse = AppRegistrationResponse(id: Option<int>)

  /** Why a handler fails. */
  datatype HandlerError =
    | NoSuchElement        // `Optional.get()` on an absent id
    | RegistrationFailed   // the application service's `registerApp` threw

  /** A call made to the application or change-log service. */
  datatype ServiceCall =
    | Write(entry: ChangeLog)
    | Update(app: Application)
    | UpdateTags(appId: int, tags: seq<string>)
    | UpdateAliases(appId: int, aliases: seq<string>)
    | RegisterApp(request: AppRegistrationRequest)
    | FindByIds(ids: seq<int>)

  /** The change-log entries a trace of calls wrote, in the order they were written. */
  function Written(trace: seq<ServiceCall>): seq<ChangeLog>
  {
    if trace == [] then [] else WrittenBy(trace[0]) + Written(trace[1..])
  }

  /** The entry one call writes, if it is a write. */
  function WrittenBy(call: ServiceCall): seq<ChangeLog>
  {
    if call.Write? then [call.entry] else []
  }

  /** What a trace wrote is what its parts wrote, one after the other. */
  lemma {:induction false} WrittenAppend(a: seq<ServiceCall>, b: seq<ServiceCall>)
    ensures Written(a + b) == Written(a) + Written(b)
  {
    if a == [] {
      assert a + b == b;
    } else {
      var ab := a + b;
      assert ab[0] == a[0];
      assert ab[1..] == a[1..] + b;
      WrittenAppend(a[1..], b);
      calc {
        Written(ab);
        WrittenBy(a[0]) + Written(a[1..] + b);
        WrittenBy(a[0]) + (Written(a[1..]) + Written(b));
        (WrittenBy(a[0]) + Written(a[1..])) + Written(b);
      }
    }
  }

  /** A single call writes at most its own entry. */
  lemma WrittenSingle(call: ServiceCall)
    ensures Written([call]) == WrittenBy(call)
  {
    assert [call][1..] == [];
  }

  /** The entry the update writes for one change. */
  function UpdateEntry(appId: int, userName: string, description: string): ChangeLog
  {
    ChangeLog(description, INFORMATION, userName, EntityReference(APPLICATION, appId))
  }

  /** The entries the update writes for a list of changes: one per change. */
  function ChangeEntries(changes: seq<FieldChange>, appId: int, userName: string,
                         describe: FieldChange -> string): (entries: seq<ChangeLog>)
    ensures |entries| == |changes|
  {
    if changes == [] then []
    else [UpdateEntry(appId, userName, describe(changes[0]))]
         + ChangeEntries(changes[1..], appId, userName, describe)
  }

  /**
   * Entry i of the update describes change i, has severity INFORMATION, is
   * attributed to the user and is addressed to the application.
   */
  lemma {:induction false} ChangeEntriesSpec(changes: seq<FieldChange>, appId: int, userName: string,
                                             describe: FieldChange -> string)
    ensures forall i :: 0 <= i < |changes| ==>
      ChangeEntries(changes, appId, userName, describe)[i] == UpdateEntry(appId, userName, describe(changes[i]))
    ensures forall i :: 0 <= i < |changes| ==>
      var e := ChangeEntries(changes, appId, userName, describe)[i];
      && e.message == describe(changes[i])
      && e.severity == INFORMATION
      && e.userId == userName
      && e.parentReference == EntityReference(APPLICATION, appId)
  {
    if changes != [] {
      ChangeEntriesSpec(changes[1..], appId, userName, describe);
      var es := ChangeEntries(changes, appId, userName, describe);
      forall i | 0 <= i < |changes|
        ensures es[i] == UpdateEntry(appId, userName, describe(changes[i]))
      {
        if i > 0 {
          assert es[i] == ChangeEntries(changes[1..], appId, userName, describe)[i - 1];
          assert changes[1..][i - 1] == changes[i];
        }
      }
    }
  }

  /** The write calls for a list of entries, one per entry. */
  function Writes(entries: seq<ChangeLog>): seq<ServiceCall>
  {
    seq(|entries|, i requires 0 <= i < |entries| => Write(entries[i]))
  }

  /** Writing a list of entries writes exactly those entries. */
  lemma {:induction false} WritesSpec(entries: seq<ChangeLog>)
    ensures Written(Writes(entries)) == entries
  {
    if entries != [] {
      WritesSpec(entries[1..]);
      assert Writes(entries)[1..] == Writes(entries[1..]);
    }
  }

  /** The calls a successful update makes: the writes, then update, tags and aliases. */
  function UpdateCalls(action: AppChangeAction, appId: int, userName: string,
                       describe: FieldChange -> string): seq<ServiceCall>
  {
    Writes(ChangeEntries(action.changes, appId, userName, describe))
    + [Update(action.app), UpdateTags(appId, action.tags), UpdateAliases(appId, action.aliases)]
  }

  /**
   * For N changes the update makes N + 3 calls: the N writes come first, in
   * change order, then `update`, then `updateTags`, then `updateAliases`, each
   * exactly once; what it writes is exactly the N change entries.
   */
  lemma UpdateCallsOrder(action: AppChangeAction, appId: int, userName: string,
                         describe: FieldChange -> string)
    ensures var calls := UpdateCalls(action, appId, userName, describe);
      var n := |action.changes|;
      && |calls| == n + 3
      && (forall i :: 0 <= i < n ==> calls[i] == Write(ChangeEntries(action.changes, appId, userName, describe)[i]))
      && calls[n] == Update(action.app)
      && calls[n + 1] == UpdateTags(appId, action.tags)
      && calls[n + 2] == UpdateAliases(appId, action.aliases)
      && Written(calls) == ChangeEntries(action.changes, appId, userName, describe)
  {
    var entries := ChangeEntries(action.changes, appId, userName, describe);
    ChangeEntriesSpec(action.changes, appId, userName, describe);
    WritesSpec(entries);
    var tail := [Update(action.app), UpdateTags(appId, action.tags), UpdateAliases(appId, action.aliases)];
    WrittenAppend(Writes(entries), tail);
    WrittenAppend([tail[0]], tail[1..]);
    WrittenAppend([tail[1]], [tail[2]]);
    assert tail == [tail[0]] + ([tail[1]] + [tail[2]]);
    WrittenSingle(tail[0]);
    WrittenSingle(tail[1]);
    WrittenSingle(tail[2]);
  }

  /** The entry registration writes for a new application. */
  function RegistrationEntry(request: AppRegistrationRequest, newId: int, userName: string): ChangeLog
  {
    ChangeLog("Registered new application: " + request.name, INFORMATION, userName,
              EntityReference(APPLICATION, newId))
  }

  /** The calls registration makes, given what `registerApp` answered (None: it threw). */
  function RegistrationCalls(request: AppRegistrationRequest, answer: Option<AppRegistrationResponse>,
                             userName: string): seq<ServiceCall>
  {
    if answer.Some? && answer.value.id.Some? then
      [RegisterApp(request), Write(RegistrationEntry(request, answer.value.id.value, userName))]
    else
      [RegisterApp(request)]
  }

  /**
   * Registration always calls `registerApp` first; it writes one entry,
   * addressed to the new id and naming the application, exactly when
   * `registerApp` answered with an id, and nothing otherwise.
   */
  lemma RegistrationWritesOnce(request: AppRegistrationRequest, answer: Option<AppRegistrationResponse>,
                               userName: string)
    ensures var calls := RegistrationCalls(request, answer, userName);
      && calls[0] == RegisterApp(request)
      && (answer.Some? && answer.value.id.Some? ==>
            Written(calls) == [ChangeLog("Registered new application: " + request.name, INFORMATION,
                                         userName, EntityReference(APPLICATION, answer.value.id.value))])
      && (answer.None? || answer.value.id.None? ==> Written(calls) == [])
  {
    var calls := RegistrationCalls(request, answer, userName);
    WrittenSingle(calls[0]);
    if |calls| == 2 {
      assert calls == [calls[0]] + [calls[1]];
      WrittenAppend([calls[0]], [calls[1]]);
      WrittenSingle(calls[1]);
    }
  }

  /** The application and change-log services, seen through the calls made to them. */
  class Services {
    /** Every call made to the services, oldest first. */
    ghost var trace: seq<ServiceCall>
    /** The change log: append-only, the entries written so far. */
    ghost var changeLog: seq<ChangeLog>

    ghost predicate Valid()
      reads this
    {
      changeLog == Written(trace)
    }

    constructor ()
      ensures Valid() && trace == [] && changeLog == []
    {
      trace := [];
      changeLog := [];
    }

    /** `changeLogService.write`. */
    method WriteEntry(entry: ChangeLog)
      requires Valid()
      modifies this
      ensures Valid()
      ensures trace == old(trace) + [Write(entry)]
      ensures changeLog == old(changeLog) + [entry]
    {
      WrittenAppend(trace, [Write(entry)]);
      trace := trace + [Write(entry)];
      changeLog := changeLog + [entry];
    }

    /** A call that writes nothing to the change log. */
    method Record(call: ServiceCall)
      requires Valid() && !call.Write?
      modifies this
      ensures Valid()
      ensures trace == old(trace) + [call] && changeLog == old(changeLog)
    {
      WrittenAppend(trace, [call]);
      trace := trace + [call];
    }
  }

  class ApplicationEndpoint {
    const services: Services

    constructor (services: Services)
      ensures this.services == services
    {
      this.services := services;
    }

    /**
     * The update handler. It fails before any service call when the
     * application has no id; otherwise it writes one entry per change, then
     * updates the application, its tags and its aliases, and answers true.
     */
    method HandleAppUpdate(action: AppChangeAction, userName: string, describe: FieldChange -> string)
      returns (r: Result<bool, HandlerError>)
      requires services.Valid()
      modifies services
      ensures services.Valid()
      ensures action.app.id.None? ==>
        r == Failure(NoSuchElement) && services.trace == old(services.trace)
        && services.changeLog == old(services.changeLog)
      ensures action.app.id.Some? ==>
        && r == Success(true)
        && services.trace == old(services.trace) + UpdateCalls(action, action.app.id.value, userName, describe)
        && services.changeLog == old(services.changeLog)
                                 + ChangeEntries(action.changes, action.app.id.value, userName, describe)
    {
      if action.app.id.None? {
        return Failure(NoSuchElement);
      }
      var appId := action.app.id.value;
      ghost var entries := ChangeEntries(action.changes, appId, userName, describe);
      ChangeEntriesSpec(action.changes, appId, userName, describe);
      WritesSpec(entries);
      var i := 0;
      while i < |action.changes|
        invariant 0 <= i <= |action.changes|
        invariant services.Valid()
        invariant services.trace == old(services.trace) + Writes(entries[..i])
        invariant services.changeLog == old(services.changeLog) + entries[..i]
      {
        var c := action.changes[i];
        services.WriteEntry(UpdateEntry(appId, userName, describe(c)));
        assert Writes(entries[..i + 1]) == Writes(entries[..i]) + [Write(entries[i])];
        assert entries[..i + 1] == entries[..i] + [entries[i]];
        i := i + 1;
      }
      assert entries[..i] == entries;
      services.Record(Update(action.app));
      services.Record(UpdateTags(appId, action.tags));
      services.Record(UpdateAliases(appId, action.aliases));
      return Success(true);
    }

    /**
     * The registration handler. `answer` is what `registerApp` returns (None:
     * it threw). It writes one entry addressed to the new id and returns the
     * response; with no answer, or an answer without an id, it fails without
     * writing.
     */
    method HandleAppRegistration(request: AppRegistrationRequest, userName: string,
                                 answer: Option<AppRegistrationResponse>)
      returns (r: Result<AppRegistrationResponse, HandlerError>)
      requires services.Valid()
      modifies services
      ensures services.Valid()
      ensures services.trace == old(services.trace) + RegistrationCalls(request, answer, userName)
      ensures answer.None? ==> r == Failure(RegistrationFailed) && services.changeLog == old(services.changeLog)
      ensures answer.Some? && answer.value.id.None? ==>
        r == Failure(NoSuchElement) && services.changeLog == old(services.changeLog)
      ensures answer.Some? && answer.value.id.Some? ==>
        && r == Success(answer.value)
        && services.changeLog == old(services.changeLog)
                                 + [RegistrationEntry(request, answer.value.id.value, userName)]
    {
      services.Record(RegisterApp(request));
      if answer.None? {
        return Failure(RegistrationFailed);
      }
      var response := answer.value;
      if response.id.None? {
        return Failure(NoSuchElement);
      }
      services.WriteEntry(RegistrationEntry(request, response.id.value, userName));
      return Success(response);
    }

    /**
     * The by-ids query. An empty id list is answered with the empty list and no
     * service call; otherwise the service is asked and `answer` is what it returns.
     */
    method FindByIdsRoute(ids: seq<int>, answer: seq<Application>) returns (apps: seq<Application>)
      requires services.Valid()
      modifies services
      ensures services.Valid()
      ensures ids == [] ==> apps == [] && services.trace == old(services.trace)
      ensures ids != [] ==> apps == answer && services.trace == old(services.trace) + [FindByIds(ids)]
      ensures services.changeLog == old(services.changeLog)
    {
      if ids == [] {
        return [];
      }
      services.Record(FindByIds(ids));
      return answer;
    }
  }
}
