/** The retry loops of the CouchDB peer as the source runs them, tied to the functions of Mvcc. */
module CouchRetry {
  import opened Types
  import opened Mvcc

  /** One document on the server, with the schedule of foreign writes and faults around the bridge's calls. */
  class Server {
    const context: Context
    var log: Log
    var calls: nat

    constructor (context: Context, log: Log)
      ensures this.context == context && State() == World(log, 0)
    {
      this.context, this.log, calls := context, log, 0;
    }

    function State(): World
      reads this
    {
      World(log, calls)
    }

    method Get() returns (fetch: Fetch)
      modifies this
      ensures Fetched(State(), fetch) == Mvcc.Get(old(State()), context)
    {
      var moment := context.at(calls);
      log := log + ForeignCommits(moment.foreign);
      calls := calls + 1;
      fetch := if !moment.fault && IsLive(log) then Got(|log|, Latest(log)) else Missing;
    }

    method Put(rev: nat, doc: Doc) returns (reply: Reply)
      modifies this
      ensures Replied(State(), reply) == Mvcc.Put(old(State()), context, rev, doc)
    {
      var moment := context.at(calls);
      log := log + ForeignCommits(moment.foreign);
      calls := calls + 1;
      if moment.fault {
        reply := Refused(Fault);
      } else if !PutAccepted(log, rev) {
        reply := Refused(Conflict);
      } else {
        log := log + [Commit(Bridge, Live(doc))];
        reply := Saved(|log| - 1);
      }
    }

    method Delete(rev: nat) returns (reply: Reply)
      modifies this
      ensures Replied(State(), reply) == Mvcc.Delete(old(State()), context, rev)
    {
      var moment := context.at(calls);
      log := log + ForeignCommits(moment.foreign);
      calls := calls + 1;
      if moment.fault {
        reply := Refused(Fault);
      } else if !IsLive(log) {
        reply := Refused(NotFound);
      } else if rev != |log| {
        reply := Refused(Conflict);
      } else {
        log := log + [Commit(Bridge, Tombstone)];
        reply := Saved(|log| - 1);
      }
    }

    method ForceUpdateRemote(rev: nat, doc: Doc) returns (way: Way)
      modifies this
      ensures Ended(State(), way) == Force(old(State()), context, rev, doc)
    {
      if !context.chunksOk {
        return Failed(Fault);
      }
      var reply := Put(rev, doc);
      way := match reply
             case Saved(k) => Forced(k, rev)
             case Refused(e) => Failed(e);
    }

    method ResolveConflict(doc: Doc) returns (way: Way)
      modifies this
      ensures Ended(State(), way) == Resolve(old(State()), context, doc)
    {
      var first := Get();
      if first.Missing? {
        return Failed(NotFound);
      }
      var remote := Get();
      if remote.Missing? {
        return Failed(NotFound);
      }
      match context.strategy {
        case TimestampWins =>
          if doc.mtime > remote.doc.mtime {
            way := ForceUpdateRemote(remote.rev, doc);
          } else {
            way := if context.acceptOk then Accepted(remote.rev) else Failed(Unresolved);
          }
        case LocalWins => way := ForceUpdateRemote(remote.rev, doc);
        case RemoteWins => way := if context.acceptOk then Accepted(remote.rev) else Failed(Unresolved);
        case _ => way := Failed(Unresolved);
      }
    }

    /** The closure that is retried: it keeps the revision that it read last for its next run. */
    method PutAttempt(doc: Doc, rev: nat) returns (read: nat, reply: Reply)
      modifies this
      ensures Attempted(State(), read, reply) == Mvcc.PutAttempt(old(State()), context, doc, rev)
    {
      read := rev;
      var existing := Get();
      if existing.Got? {
        read := existing.rev;
      }
      reply := Put(read, doc);
    }

    /** RetryWithJitter around the closure; None when all attempts met a conflict. */
    method RetryPut(doc: Doc) returns (ended: Option<Way>)
      modifies this
      ensures PutLoop(old(State()), context, doc, 0, 0) == if ended.Some? then Ended(State(), ended.value) else Resolve(State(), context, doc)
    {
      var rev := 0;
      var attempt := 0;
      while true
        invariant 0 <= attempt <= MAX_RETRIES
        invariant PutLoop(old(State()), context, doc, 0, 0) == PutLoop(State(), context, doc, rev, attempt)
        decreases MAX_RETRIES - attempt
      {
        var reply;
        rev, reply := PutAttempt(doc, rev);
        if reply.Saved? {
          return Some(Plain(reply.index, rev));
        }
        if !IsCouchDBConflict(context, reply.error) {
          return Some(Failed(reply.error));
        }
        if attempt >= MAX_RETRIES {
          return None;
        }
        if context.cancelled(attempt) {
          return Some(Failed(Cancelled));
        }
        attempt := attempt + 1;
      }
    }

    method PutDocumentWithRetry(doc: Doc) returns (way: Way)
      modifies this
      ensures Ended(State(), way) == Mvcc.PutDocumentWithRetry(old(State()), context, doc)
    {
      var ended := RetryPut(doc);
      if ended.Some? {
        return ended.value;
      }
      way := ResolveConflict(doc);
    }

    method ResolveDeleteConflict(localMTime: int) returns (way: Way)
      modifies this
      ensures Ended(State(), way) == ResolveDelete(old(State()), context, localMTime)
    {
      var remote := Get();
      if remote.Missing? {
        return Failed(NotFound);
      }
      var proceed := context.strategy == LocalWins || (context.strategy == TimestampWins && localMTime >= remote.doc.mtime);
      if proceed {
        way := ForcedDelete();
      } else if context.strategy == TimestampWins || context.strategy == RemoteWins {
        way := if context.acceptOk then Accepted(remote.rev) else Failed(Unresolved);
      } else {
        way := Failed(Unresolved);
      }
    }

    method ForcedDelete() returns (way: Way)
      modifies this
      ensures Ended(State(), way) == ForceDelete(old(State()), context)
    {
      var latest := Get();
      if latest.Missing? {
        return Failed(NotFound);
      }
      var reply := Delete(latest.rev);
      way := match reply
             case Saved(k) => Forced(k, latest.rev)
             case Refused(e) => Failed(e);
    }

    method DeleteAttempt(rev: nat) returns (read: nat, reply: Reply)
      modifies this
      ensures Attempted(State(), read, reply) == Mvcc.DeleteAttempt(old(State()), context, rev)
    {
      read := rev;
      var existing := Get();
      if existing.Got? {
        read := existing.rev;
      }
      reply := Delete(read);
    }

    /** RetryWithJitter around the closure; None when all attempts met a conflict. */
    method RetryDelete(initialRev: nat, localMTime: int) returns (ended: Option<Way>)
      modifies this
      ensures DeleteLoop(old(State()), context, initialRev, localMTime, 0) == if ended.Some? then Ended(State(), ended.value) else ResolveDelete(State(), context, localMTime)
    {
      var rev := initialRev;
      var attempt := 0;
      while true
        invariant 0 <= attempt <= MAX_RETRIES
        invariant DeleteLoop(old(State()), context, initialRev, localMTime, 0) == DeleteLoop(State(), context, rev, localMTime, attempt)
        decreases MAX_RETRIES - attempt
      {
        var reply;
        rev, reply := DeleteAttempt(rev);
        if reply.Saved? {
          return Some(Plain(reply.index, rev));
        }
        if !IsCouchDBConflict(context, reply.error) {
          return Some(Failed(reply.error));
        }
        if attempt >= MAX_RETRIES {
          return None;
        }
        if context.cancelled(attempt) {
          return Some(Failed(Cancelled));
        }
        attempt := attempt + 1;
      }
    }

    method DeleteDocumentWithRetry(initialRev: nat, localMTime: int) returns (way: Way)
      modifies this
      ensures Ended(State(), way) == Mvcc.DeleteDocumentWithRetry(old(State()), context, initialRev, localMTime)
    {
      var ended := RetryDelete(initialRev, localMTime);
      if ended.Some? {
        return ended.value;
      }
      way := ResolveDeleteConflict(localMTime);
    }
  }
}
