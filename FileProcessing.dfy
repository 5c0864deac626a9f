/**
 * The CapFrame session store of `handlers/file_processing.py`: the
 * per-user lists of uploaded CapFrame files waiting to be processed as one
 * batch, and the flush task that processes and clears them.
 *
 * The ten-second `asyncio.sleep` and the awaited chat messages are replaced
 * by explicit events. `FlushStart` is the end of a flush task's sleep: it
 * reads the user's live list and processes it (`process_files` runs to its
 * end without yielding). `FlushEnd` is the end of the result messages, after
 * which the entry is deleted; arrivals between the two events append to
 * the live list. `FlushAbandon` is the one path that ends a flush task
 * without deleting: the exception handler's own message fails before its
 * `del`, and the entry is left behind with no task to clear it.
 */
module FileProcessing {
  import opened Wrappers
  import opened Benchmark
  import Registry
  import opened Processor

  /** Where `handle_benchmark_file` sends an upload. */
  datatype Route =
    | Direct(result: Envelope)     // any type but CapFrame: `process_file` at once
    | Queued(timerStarted: bool)   // a CapFrame file: appended to the user's list

  class SessionStore {
    /** `capframe_sessions`: user id to the files waiting for that user. */
    var sessions: map<int, seq<FileInput>>
    /** The users whose flush task is still asleep, once per task. */
    var pending: multiset<int>
    /** The users whose flush task has processed its list and is sending the results. */
    var flushing: set<int>
    /** The users whose flush task ended without deleting their list: no task of theirs is left. */
    var stranded: set<int>
    /** For each flushing user, the files the flush processed. */
    ghost var processed: map<int, seq<FileInput>>

    /**
     * Every list is non-empty; a user has a list exactly while one flush task
     * of theirs is asleep or sending, or after their task was abandoned; a
     * flushing user's list starts with the files that were processed.
     */
    ghost predicate Valid()
      reads this
    {
      && (forall u :: u in sessions ==> sessions[u] != [])
      && (forall u :: u in sessions <==> u in pending || u in flushing || u in stranded)
      && (forall u :: u in pending ==> pending[u] == 1 && u !in flushing && u !in stranded)
      && (forall u :: u in flushing ==> u !in stranded)
      && (forall u :: u in flushing ==> u in processed && processed[u] != [] && Processed(sessions[u], processed[u]))
    }

    constructor ()
      ensures Valid()
      ensures sessions == map[] && pending == multiset{} && flushing == {} && stranded == {}
    {
      sessions := map[];
      pending := multiset{};
      flushing := {};
      stranded := {};
      processed := map[];
    }

    /** The CapFrame branch of `handle_benchmark_file`: append to the user's list, and start a flush task for a new list. */
    method Arrive(user: int, file: FileInput) returns (timerStarted: bool)
      requires Valid()
      modifies this
      ensures Valid()
      ensures sessions == old(sessions)[user := (if user in old(sessions) then old(sessions)[user] else []) + [file]]
      ensures timerStarted <==> user !in old(sessions)
      ensures pending == (if timerStarted then old(pending) + multiset{user} else old(pending))
      ensures flushing == old(flushing) && stranded == old(stranded) && processed == old(processed)
      ensures user in old(stranded) ==> !timerStarted && user !in pending && user !in flushing
    {
      var session := if user in sessions then sessions[user] else [];
      if user in flushing {
        ProcessedExtends(session, processed[user], file);
      }
      session := session + [file];
      sessions := sessions[user := session];
      timerStarted := |session| == 1;
      if timerStarted {
        pending := pending + multiset{user};
      }
    }

    /** `handle_benchmark_file` after the download: CapFrame files join the store, any other type goes to `process_file` at once. */
    method Upload(user: int, file: FileInput, env: Env) returns (route: Route)
      requires Valid()
      modifies this
      ensures Valid()
      ensures var tag := Registry.Detect(file.content, file.decoded);
        tag != Registry.CapFrame ==>
          && route == Direct(ProcessFile(file, tag.Name(), env))
          && sessions == old(sessions) && pending == old(pending) && flushing == old(flushing)
      ensures Registry.Detect(file.content, file.decoded) == Registry.CapFrame ==>
        && route.Queued?
        && sessions == old(sessions)[user := (if user in old(sessions) then old(sessions)[user] else []) + [file]]
        && (route.timerStarted <==> user !in old(sessions))
        && pending == (if route.timerStarted then old(pending) + multiset{user} else old(pending))
        && flushing == old(flushing)
      ensures stranded == old(stranded) && processed == old(processed)
    {
      var tag := Registry.Detect(file.content, file.decoded);
      if tag != Registry.CapFrame {
        route := Direct(ProcessFile(file, tag.Name(), env));
      } else {
        var started := Arrive(user, file);
        route := Queued(started);
      }
    }

    /**
     * The sleep of `user`'s flush task ends and it reads the live list. A
     * sleeping task always finds a non-empty list, so the early return for
     * a missing or empty entry is never taken.
     */
    method FlushStart(user: int) returns (batch: seq<FileInput>)
      requires Valid() && user in pending
      modifies this
      ensures Valid()
      ensures old(user in sessions) && batch == old(sessions[user]) && batch != []
      ensures sessions == old(sessions) && pending == old(pending) - multiset{user}
      ensures flushing == old(flushing) + {user} && stranded == old(stranded)
      ensures processed == old(processed)[user := batch]
    {
      batch := sessions[user];
      pending := pending - multiset{user};
      flushing := flushing + {user};
      processed := processed[user := batch];
      assert Processed(batch, batch);
    }

    /** `process_capframe_session` up to the results: the whole live list is processed as one CapFrame batch. */
    method Flush(user: int, env: Env) returns (result: Envelope)
      requires Valid() && user in pending
      modifies this
      ensures Valid()
      ensures old(user in sessions) && result == Batch(old(sessions[user]), "capframe", env)
      ensures sessions == old(sessions) && pending == old(pending) - multiset{user}
      ensures flushing == old(flushing) + {user} && stranded == old(stranded)
      ensures processed == old(processed)[user := old(sessions[user])]
    {
      var batch := FlushStart(user);
      result := ProcessFiles(batch, "capframe", env);
    }

    /**
     * `user`'s flush task reaches a `del` of the entry: after the results
     * were sent (line 188), after the failure message (line 146), or in the
     * exception handler once its own message was sent (line 199). `dropped`
     * are the files that arrived after the flush read the list; they are
     * deleted unprocessed.
     */
    method FlushEnd(user: int) returns (ghost dropped: seq<FileInput>)
      requires Valid() && user in flushing
      modifies this
      ensures Valid()
      ensures sessions == old(sessions) - {user}
      ensures pending == old(pending) && flushing == old(flushing) - {user} && stranded == old(stranded)
      ensures old(sessions[user]) == old(processed[user]) + dropped
    {
      dropped := sessions[user][|processed[user]|..];
      assert sessions[user] == processed[user] + dropped;
      sessions := sessions - {user};
      flushing := flushing - {user};
    }

    /**
     * `user`'s flush task raised, and the exception handler's own message
     * (line 191) raised too: the task ends before the `del` of line 199, so
     * the list stays with no task left to process or clear it.
     */
    method FlushAbandon(user: int)
      requires Valid() && user in flushing
      modifies this
      ensures Valid()
      ensures sessions == old(sessions) && pending == old(pending)
      ensures flushing == old(flushing) - {user} && stranded == old(stranded) + {user}
    {
      flushing := flushing - {user};
      stranded := stranded + {user};
    }
  }

  /** The files a flush processed are the start of the user's live list. */
  ghost predicate Processed(session: seq<FileInput>, done: seq<FileInput>) {
    |done| <= |session| && session[..|done|] == done
  }

  /** Appending to a live list keeps the processed files at its start. */
  lemma ProcessedExtends(session: seq<FileInput>, done: seq<FileInput>, file: FileInput)
    requires Processed(session, done)
    ensures Processed(session + [file], done)
  {
    assert (session + [file])[..|done|] == session[..|done|];
  }

  /**
   * One user uploads CapFrame file `a`; its flush processes `[a]`; `b`
   * arrives while the results are being sent and starts no timer; the
   * deletion drops `b` unprocessed; the next file `c` starts a fresh list
   * and a new timer.
   */
  method LateArrival(user: int, a: FileInput, b: FileInput, c: FileInput)
    returns (processed: seq<FileInput>, timerForB: bool, ghost dropped: seq<FileInput>, timerForC: bool, waiting: seq<FileInput>)
    ensures processed == [a]
    ensures !timerForB && dropped == [b]
    ensures timerForC && waiting == [c]
  {
    var store := new SessionStore();
    var timerForA := store.Arrive(user, a);
    assert store.sessions[user] == [] + [a] == [a];
    processed := store.FlushStart(user);
    assert store.processed[user] == [a];
    timerForB := store.Arrive(user, b);
    assert store.sessions[user] == [a, b];
    dropped := store.FlushEnd(user);
    assert store.sessions == map[];
    timerForC := store.Arrive(user, c);
    waiting := store.sessions[user];
  }

  /**
   * One user uploads CapFrame file `a`; its flush task raises and so does
   * its error message, so the entry is never deleted. Every later file `b`
   * is appended to the stranded list and starts no timer: no flush task will
   * process or clear it.
   */
  method StrandedSession(user: int, a: FileInput, b: FileInput)
    returns (timerForB: bool, waiting: seq<FileInput>, asleep: bool, sending: bool)
    ensures !timerForB && waiting == [a, b]
    ensures !asleep && !sending
  {
    var store := new SessionStore();
    var timerForA := store.Arrive(user, a);
    assert store.sessions[user] == [] + [a] == [a];
    var batch := store.FlushStart(user);
    store.FlushAbandon(user);
    timerForB := store.Arrive(user, b);
    waiting := store.sessions[user];
    asleep := user in store.pending;
    sending := user in store.flushing;
  }

  /** Files of any other type never reach the store: every event of theirs leaves it as it was. */
  method OtherTypesBypass(user: int, file: FileInput, env: Env) returns (result: Envelope, stored: bool)
    requires Registry.Detect(file.content, file.decoded) != Registry.CapFrame
    ensures result == ProcessFile(file, Registry.Detect(file.content, file.decoded).Name(), env)
    ensures !stored
  {
    var store := new SessionStore();
    var route := store.Upload(user, file, env);
    result := route.result;
    stored := user in store.sessions;
  }
}
