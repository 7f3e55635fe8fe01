/** The task-type whitelist, the audit-log writer and the names the handler
    registry provides. */
module Helpers {
  import opened Types
  import opened Store

  /** The task types a submission may name. */
  const TaskTypes: set<string> := {"sleep", "sendEmail", "webhook", "transform", "faliureTest"}

  /** The task types the handler registry exports a function for. */
  const HandlerNames: set<string> := {"sleep", "sendEmail", "webhook", "transform"}

  /** validateTaskType: the whitelist check. A task type passes exactly when
      the registry has a handler for it or it is "faliureTest". */
  predicate ValidateTaskType(taskType: string): (ok: bool)
    ensures ok <==> taskType in HandlerNames || taskType == "faliureTest"
  {
    taskType in TaskTypes
  }

  /** Exactly one accepted task type has no handler: "faliureTest". A job of
      that type passes validation and can never be executed. */
  lemma AcceptedWithoutHandler()
    ensures TaskTypes - HandlerNames == {"faliureTest"}
    ensures forall t :: ValidateTaskType(t) && t !in HandlerNames <==> t == "faliureTest"
  {
    assert "faliureTest" !in HandlerNames by {
      assert |"faliureTest"| == 11;
      assert "faliureTest"[0] == 'f';
    }
  }

  /** Appends one entry to the logs table and returns true. A failure of the
      store (`storeUp` false) is passed on (the promise rejects) and nothing
      is written. An absent meta is stored as null, any other as its JSON
      text; `meta` here is the structured value. */
  method PersistLog(db: Db, ownerType: string, ownerId: Option<string>, level: Level,
                    message: string, meta: Option<Meta>, storeUp: bool)
    returns (r: Result<bool>)
    modifies db`logs
    ensures storeUp ==> r == Ok(true) && db.logs == old(db.logs) + [LogEntry(ownerType, ownerId, level, message, meta)]
    ensures !storeUp ==> r == Err(StorageFailure) && db.logs == old(db.logs)
  {
    if !storeUp {
      return Err(StorageFailure);
    }
    db.logs := db.logs + [LogEntry(ownerType, ownerId, level, message, meta)];
    r := Ok(true);
  }
}
