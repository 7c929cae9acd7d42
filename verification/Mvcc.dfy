/**
  Optimistic concurrency against a CouchDB document. Revision k is the k-th commit in the history of the document;
  foreign clients may commit anything between any two calls of the bridge.
 */
module Mvcc {
  import opened Types

  datatype Doc = Doc(mtime: int, payload: Bytes)

  datatype Body = Live(doc: Doc) | Tombstone

  datatype Author = Bridge | Foreign

  datatype Commit = Commit(author: Author, body: Body)

  type Log = seq<Commit>

  /** What happens just before a call takes effect, and whether the call then fails without being seen. */
  datatype Moment = Moment(foreign: seq<Body>, fault: bool)

  datatype Error = Conflict | NotFound | Fault | Cancelled | Unresolved

  datatype Strategy = TimestampWins | LocalWins | RemoteWins | Manual | Unknown

  /** The surroundings of one operation: the schedule, the configuration, and how the side effects fare. */
  datatype Context = Context(
    at: nat -> Moment,
    cancelled: nat -> bool,
    idMentionsConflict: bool,
    strategy: Strategy,
    acceptOk: bool,
    chunksOk: bool)

  datatype World = World(log: Log, calls: nat)

  predicate IsLive(log: Log) {
    log != [] && log[|log| - 1].body.Live?
  }

  function Latest(log: Log): Doc
    requires IsLive(log)
  {
    log[|log| - 1].body.doc
  }

  function ForeignCommits(bodies: seq<Body>): Log {
    seq(|bodies|, i requires 0 <= i < |bodies| => Commit(Foreign, bodies[i]))
  }

  function Land(w: World, c: Context): World {
    World(w.log + ForeignCommits((c.at)(w.calls).foreign), w.calls + 1)
  }

  // -------- single calls --------

  datatype Fetch = Got(rev: nat, doc: Doc) | Missing

  datatype Fetched = Fetched(world: World, fetch: Fetch)

  function Get(w: World, c: Context): Fetched {
    var l := Land(w, c);
    Fetched(l, if !(c.at)(w.calls).fault && IsLive(l.log) then Got(|l.log|, Latest(l.log)) else Missing)
  }

  /** index is the place of the commit in the log; its revision is one more. */
  datatype Reply = Saved(index: nat) | Refused(error: Error)

  datatype Replied = Replied(world: World, reply: Reply)

  /** Revision 0 stands for "none": it is accepted when the document is absent or deleted. */
  predicate PutAccepted(log: Log, rev: nat) {
    if rev == 0 then !IsLive(log) else rev == |log|
  }

  function Put(w: World, c: Context, rev: nat, doc: Doc): Replied {
    var l := Land(w, c);
    if (c.at)(w.calls).fault then Replied(l, Refused(Fault))
    else if !PutAccepted(l.log, rev) then Replied(l, Refused(Conflict))
    else Replied(l.(log := l.log + [Commit(Bridge, Live(doc))]), Saved(|l.log|))
  }

  function Delete(w: World, c: Context, rev: nat): Replied {
    var l := Land(w, c);
    if (c.at)(w.calls).fault then Replied(l, Refused(Fault))
    else if !IsLive(l.log) then Replied(l, Refused(NotFound))
    else if rev != |l.log| then Replied(l, Refused(Conflict))
    else Replied(l.(log := l.log + [Commit(Bridge, Tombstone)]), Saved(|l.log|))
  }

  /**
    isCouchDBConflict looks for "Conflict" in the message, which also holds the document ID: with such an ID every
    error of the server counts as a conflict.
   */
  predicate IsCouchDBConflict(c: Context, e: Error) {
    e == Conflict || (c.idMentionsConflict && (e == Fault || e == NotFound))
  }

  const MAX_RETRIES := 3

  // -------- the retry loop around a closure --------

  /** How an operation ended: the index of the bridge's commit and the revision read before it, or the accepted one. */
  datatype Way =
    | Plain(index: nat, read: nat)
    | Forced(index: nat, read: nat)
    | Accepted(read: nat)
    | Failed(error: Error)

  datatype Ended = Ended(world: World, way: Way)

  /** One run of the retried closure; rev is what the closure remembers for the next one. */
  datatype Attempted = Attempted(world: World, rev: nat, reply: Reply)

  /** What RetryWithJitter and its caller do after a run of the closure. */
  datatype Turn = Finish(way: Way) | Again | AskStrategy

  function TurnAfter(c: Context, attempt: nat, a: Attempted): Turn {
    match a.reply
    case Saved(k) => Finish(Plain(k, a.rev))
    case Refused(e) =>
      if !IsCouchDBConflict(c, e) then Finish(Failed(e))
      else if attempt >= MAX_RETRIES then AskStrategy
      else if (c.cancelled)(attempt) then Finish(Failed(Cancelled))
      else Again
  }

  // -------- putDocumentWithRetry --------

  function PutAttempt(w: World, c: Context, doc: Doc, rev: nat): Attempted {
    var g := Get(w, c);
    var rev' := if g.fetch.Got? then g.fetch.rev else rev;
    var p := Put(g.world, c, rev', doc);
    Attempted(p.world, rev', p.reply)
  }

  /** The retry loop from the given attempt on; rev is the revision read last, 0 if none. */
  function PutLoop(w: World, c: Context, doc: Doc, rev: nat, attempt: nat): Ended
    requires attempt <= MAX_RETRIES
    decreases MAX_RETRIES - attempt
  {
    var a := PutAttempt(w, c, doc, rev);
    match TurnAfter(c, attempt, a)
    case Finish(way) => Ended(a.world, way)
    case AskStrategy => Resolve(a.world, c, doc)
    case Again => PutLoop(a.world, c, doc, a.rev, attempt + 1)
  }

  /** resolveConflict: the second read decides, and a forced write uses its revision. */
  function Resolve(w: World, c: Context, doc: Doc): Ended {
    var g := Get(w, c);
    if g.fetch.Missing? then Ended(g.world, Failed(NotFound))
    else
      var h := Get(g.world, c);
      if h.fetch.Missing? then Ended(h.world, Failed(NotFound))
      else
        match c.strategy
        case TimestampWins =>
          if doc.mtime > h.fetch.doc.mtime then Force(h.world, c, h.fetch.rev, doc)
          else Accept(h.world, c, h.fetch.rev)
        case LocalWins => Force(h.world, c, h.fetch.rev, doc)
        case RemoteWins => Accept(h.world, c, h.fetch.rev)
        case _ => Ended(h.world, Failed(Unresolved))
  }

  /** forceUpdateRemote, as far as the main document goes; chunks are documents of their own. */
  function Force(w: World, c: Context, rev: nat, doc: Doc): Ended {
    if !c.chunksOk then Ended(w, Failed(Fault))
    else
      var p := Put(w, c, rev, doc);
      match p.reply
      case Saved(k) => Ended(p.world, Forced(k, rev))
      case Refused(e) => Ended(p.world, Failed(e))
  }

  function Accept(w: World, c: Context, rev: nat): Ended {
    Ended(w, if c.acceptOk then Accepted(rev) else Failed(Unresolved))
  }

  function PutDocumentWithRetry(w: World, c: Context, doc: Doc): Ended {
    PutLoop(w, c, doc, 0, 0)
  }

  // -------- deleteDocumentWithRetry --------

  function DeleteAttempt(w: World, c: Context, rev: nat): Attempted {
    var g := Get(w, c);
    var rev' := if g.fetch.Got? then g.fetch.rev else rev;
    var p := Delete(g.world, c, rev');
    Attempted(p.world, rev', p.reply)
  }

  function DeleteLoop(w: World, c: Context, rev: nat, localMTime: int, attempt: nat): Ended
    requires attempt <= MAX_RETRIES
    decreases MAX_RETRIES - attempt
  {
    var a := DeleteAttempt(w, c, rev);
    match TurnAfter(c, attempt, a)
    case Finish(way) => Ended(a.world, way)
    case AskStrategy => ResolveDelete(a.world, c, localMTime)
    case Again => DeleteLoop(a.world, c, a.rev, localMTime, attempt + 1)
  }

  /** resolveDeleteConflict, and the forced delete after it, which reads the revision once more. */
  function ResolveDelete(w: World, c: Context, localMTime: int): Ended {
    var g := Get(w, c);
    if g.fetch.Missing? then Ended(g.world, Failed(NotFound))
    else
      match c.strategy
      case TimestampWins =>
        if localMTime >= g.fetch.doc.mtime then ForceDelete(g.world, c) else Accept(g.world, c, g.fetch.rev)
      case LocalWins => ForceDelete(g.world, c)
      case RemoteWins => Accept(g.world, c, g.fetch.rev)
      case _ => Ended(g.world, Failed(Unresolved))
  }

  function ForceDelete(w: World, c: Context): Ended {
    var g := Get(w, c);
    if g.fetch.Missing? then Ended(g.world, Failed(NotFound))
    else
      var p := Delete(g.world, c, g.fetch.rev);
      match p.reply
      case Saved(k) => Ended(p.world, Forced(k, g.fetch.rev))
      case Refused(e) => Ended(p.world, Failed(e))
  }

  function DeleteDocumentWithRetry(w: World, c: Context, initialRev: nat, localMTime: int): Ended {
    DeleteLoop(w, c, initialRev, localMTime, 0)
  }

  // -------- what holds under every schedule --------

  predicate OnlyForeign(log: Log, from: nat) {
    forall k | from <= k < |log| :: log[k].author == Foreign
  }

  /** The bridge has committed body once, at index k, and nothing else since from. */
  predicate OneCommit(log: Log, from: nat, k: nat, body: Body) {
    && from <= k < |log|
    && log[k] == Commit(Bridge, body)
    && forall j | from <= j < |log| && j != k :: log[j].author == Foreign
  }

  /**
    No lost update and no double write: an error or an accepted remote version leaves no commit of the bridge, and
    success leaves one, put directly over the revision that was read last, or over no live document.
   */
  predicate Safe(before: Log, e: Ended, body: Body) {
    var log := e.world.log;
    && before <= log
    && match e.way
       case Plain(k, read) =>
         OneCommit(log, |before|, k, body) && (k == read || (read == 0 && body.Live? && !IsLive(log[..k])))
       case Forced(k, read) => OneCommit(log, |before|, k, body) && k == read && IsLive(log[..k])
       case Accepted(read) => OnlyForeign(log, |before|) && 0 < read <= |log| && log[read - 1].body.Live?
       case Failed(_) => OnlyForeign(log, |before|)
  }

  lemma GetSafe(before: Log, w: World, c: Context)
    requires before <= w.log && OnlyForeign(w.log, |before|)
    ensures before <= Get(w, c).world.log && OnlyForeign(Get(w, c).world.log, |before|)
    ensures var g := Get(w, c);
      g.fetch.Got? ==> 0 < g.fetch.rev == |g.world.log| && IsLive(g.world.log) && g.fetch.doc == Latest(g.world.log)
  {}

  lemma PutSafe(before: Log, w: World, c: Context, rev: nat, doc: Doc)
    requires before <= w.log && OnlyForeign(w.log, |before|)
    ensures var p := Put(w, c, rev, doc);
      && before <= p.world.log && w.log <= p.world.log
      && match p.reply
         case Saved(k) => OneCommit(p.world.log, |before|, k, Live(doc)) &&
                          (k == rev || (rev == 0 && !IsLive(p.world.log[..k])))
         case Refused(_) => OnlyForeign(p.world.log, |before|)
  {
    var l := Land(w, c);
    var p := Put(w, c, rev, doc);
    if p.reply.Saved? {
      assert p.world.log[..|l.log|] == l.log;
    }
  }

  lemma DeleteSafe(before: Log, w: World, c: Context, rev: nat)
    requires before <= w.log && OnlyForeign(w.log, |before|)
    ensures var p := Delete(w, c, rev);
      && before <= p.world.log && w.log <= p.world.log
      && match p.reply
         case Saved(k) => OneCommit(p.world.log, |before|, k, Tombstone) && k == rev &&
                          IsLive(p.world.log[..k])
         case Refused(_) => OnlyForeign(p.world.log, |before|)
  {
    var l := Land(w, c);
    var p := Delete(w, c, rev);
    if p.reply.Saved? {
      assert p.world.log[..|l.log|] == l.log;
    }
  }

  lemma ForceSafe(before: Log, w: World, c: Context, rev: nat, doc: Doc)
    requires before <= w.log && OnlyForeign(w.log, |before|) && 0 < rev == |w.log| && IsLive(w.log)
    ensures Safe(before, Force(w, c, rev, doc), Live(doc))
    ensures var e := Force(w, c, rev, doc); e.way.Forced? ==> Latest(e.world.log[..e.way.index]) == Latest(w.log)
  {
    if c.chunksOk {
      PutSafe(before, w, c, rev, doc);
      var e := Force(w, c, rev, doc);
      if e.way.Forced? {
        assert e.world.log[..rev] == w.log;
      }
    }
  }

  lemma ResolveSafe(before: Log, w: World, c: Context, doc: Doc)
    requires before <= w.log && OnlyForeign(w.log, |before|)
    ensures Safe(before, Resolve(w, c, doc), Live(doc))
    ensures var e := Resolve(w, c, doc);
      e.way.Forced? && c.strategy == TimestampWins ==> Latest(e.world.log[..e.way.index]).mtime < doc.mtime
    ensures !Resolve(w, c, doc).way.Plain?
  {
    GetSafe(before, w, c);
    var g := Get(w, c);
    if g.fetch.Got? {
      GetSafe(before, g.world, c);
      var h := Get(g.world, c);
      if h.fetch.Got? {
        ForceSafe(before, h.world, c, h.fetch.rev, doc);
      }
    }
  }

  lemma PutAttemptSafe(before: Log, w: World, c: Context, doc: Doc, rev: nat)
    requires before <= w.log && OnlyForeign(w.log, |before|)
    ensures var a := PutAttempt(w, c, doc, rev);
      match a.reply
      case Saved(k) => Safe(before, Ended(a.world, Plain(k, a.rev)), Live(doc))
      case Refused(_) => before <= a.world.log && OnlyForeign(a.world.log, |before|)
  {
    var g := Get(w, c);
    GetSafe(before, w, c);
    PutSafe(before, g.world, c, if g.fetch.Got? then g.fetch.rev else rev, doc);
  }

  lemma {:induction false} PutLoopSafe(before: Log, w: World, c: Context, doc: Doc, rev: nat, attempt: nat)
    requires attempt <= MAX_RETRIES && before <= w.log && OnlyForeign(w.log, |before|)
    ensures Safe(before, PutLoop(w, c, doc, rev, attempt), Live(doc))
    ensures var e := PutLoop(w, c, doc, rev, attempt);
      e.way.Forced? && c.strategy == TimestampWins ==> Latest(e.world.log[..e.way.index]).mtime < doc.mtime
    decreases MAX_RETRIES - attempt
  {
    PutAttemptSafe(before, w, c, doc, rev);
    var a := PutAttempt(w, c, doc, rev);
    if a.reply.Refused? && IsCouchDBConflict(c, a.reply.error) {
      if attempt >= MAX_RETRIES {
        ResolveSafe(before, a.world, c, doc);
      } else if !(c.cancelled)(attempt) {
        PutLoopSafe(before, a.world, c, doc, a.rev, attempt + 1);
      }
    }
  }

  /**
    putDocumentWithRetry under any schedule: at most one commit of the bridge, over the revision it read last;
    a commit forced by timestamp replaces the very version that was compared, and the stored mtime grows.
   */
  lemma PutDocumentIsSafe(w: World, c: Context, doc: Doc)
    ensures Safe(w.log, PutDocumentWithRetry(w, c, doc), Live(doc))
    ensures var e := PutDocumentWithRetry(w, c, doc);
      e.way.Forced? && c.strategy == TimestampWins ==>
        Latest(e.world.log[..e.way.index]).mtime < e.world.log[e.way.index].body.doc.mtime
  {
    PutLoopSafe(w.log, w, c, doc, 0, 0);
  }

  lemma ForceDeleteSafe(before: Log, w: World, c: Context)
    requires before <= w.log && OnlyForeign(w.log, |before|)
    ensures Safe(before, ForceDelete(w, c), Tombstone)
    ensures !ForceDelete(w, c).way.Plain?
  {
    GetSafe(before, w, c);
    var h := Get(w, c);
    if h.fetch.Got? {
      DeleteSafe(before, h.world, c, h.fetch.rev);
    }
  }

  lemma ResolveDeleteSafe(before: Log, w: World, c: Context, localMTime: int)
    requires before <= w.log && OnlyForeign(w.log, |before|)
    ensures Safe(before, ResolveDelete(w, c, localMTime), Tombstone)
    ensures !ResolveDelete(w, c, localMTime).way.Plain?
  {
    GetSafe(before, w, c);
    var g := Get(w, c);
    if g.fetch.Got? {
      ForceDeleteSafe(before, g.world, c);
    }
  }

  lemma DeleteAttemptSafe(before: Log, w: World, c: Context, rev: nat)
    requires before <= w.log && OnlyForeign(w.log, |before|)
    ensures var a := DeleteAttempt(w, c, rev);
      match a.reply
      case Saved(k) => Safe(before, Ended(a.world, Plain(k, a.rev)), Tombstone)
      case Refused(_) => before <= a.world.log && OnlyForeign(a.world.log, |before|)
  {
    var g := Get(w, c);
    GetSafe(before, w, c);
    DeleteSafe(before, g.world, c, if g.fetch.Got? then g.fetch.rev else rev);
  }

  lemma {:induction false} DeleteLoopSafe(before: Log, w: World, c: Context, rev: nat, localMTime: int, attempt: nat)
    requires attempt <= MAX_RETRIES && before <= w.log && OnlyForeign(w.log, |before|)
    ensures Safe(before, DeleteLoop(w, c, rev, localMTime, attempt), Tombstone)
    decreases MAX_RETRIES - attempt
  {
    DeleteAttemptSafe(before, w, c, rev);
    var a := DeleteAttempt(w, c, rev);
    if a.reply.Refused? && IsCouchDBConflict(c, a.reply.error) {
      if attempt >= MAX_RETRIES {
        ResolveDeleteSafe(before, a.world, c, localMTime);
      } else if !(c.cancelled)(attempt) {
        DeleteLoopSafe(before, a.world, c, a.rev, localMTime, attempt + 1);
      }
    }
  }

  /** deleteDocumentWithRetry under any schedule: at most one tombstone, over the revision that was read last. */
  lemma DeleteDocumentIsSafe(w: World, c: Context, initialRev: nat, localMTime: int)
    ensures Safe(w.log, DeleteDocumentWithRetry(w, c, initialRev, localMTime), Tombstone)
  {
    DeleteLoopSafe(w.log, w, c, initialRev, localMTime, 0);
  }

  // -------- when and how conflicts are resolved --------

  lemma PutAttemptCalls(w: World, c: Context, doc: Doc, rev: nat)
    ensures PutAttempt(w, c, doc, rev).world.calls == w.calls + 2
  {}

  lemma ResolveCalls(w: World, c: Context, doc: Doc)
    ensures var e := Resolve(w, c, doc);
      && e.world.calls <= w.calls + 3
      && !e.way.Plain?
      && (e.way.Forced? || e.way.Accepted? ==> e.world.calls >= w.calls + 2)
  {}

  /** How many calls an operation with left attempts to go may still take, by how it ends. */
  predicate CallsFit(from: nat, left: nat, e: Ended) {
    && e.world.calls <= from + 2 * left + 3
    && (e.way.Forced? || e.way.Accepted? ==> e.world.calls >= from + 2 * left + 2)
    && (e.way.Plain? ==> e.world.calls <= from + 2 * left)
  }

  lemma {:induction false} PutLoopCalls(w: World, c: Context, doc: Doc, rev: nat, attempt: nat)
    requires attempt <= MAX_RETRIES
    ensures CallsFit(w.calls, MAX_RETRIES + 1 - attempt, PutLoop(w, c, doc, rev, attempt))
    decreases MAX_RETRIES - attempt
  {
    PutAttemptCalls(w, c, doc, rev);
    var a := PutAttempt(w, c, doc, rev);
    if a.reply.Refused? && IsCouchDBConflict(c, a.reply.error) {
      if attempt >= MAX_RETRIES {
        ResolveCalls(a.world, c, doc);
      } else if !(c.cancelled)(attempt) {
        PutLoopCalls(a.world, c, doc, a.rev, attempt + 1);
        var e := PutLoop(a.world, c, doc, a.rev, attempt + 1);
        assert CallsFit(w.calls, MAX_RETRIES + 1 - attempt, e);
        assert PutLoop(w, c, doc, rev, attempt) == e;
      }
    }
  }

  /** Conflict resolution comes only after four attempts of two calls each, and an operation makes at most 11 calls. */
  lemma ResolutionIsTheLastResort(w: World, c: Context, doc: Doc)
    ensures var e := PutDocumentWithRetry(w, c, doc);
      && e.world.calls <= w.calls + 11
      && (e.way.Forced? || e.way.Accepted? ==> e.world.calls >= w.calls + 10)
      && (e.way.Plain? ==> e.world.calls <= w.calls + 8)
  {
    PutLoopCalls(w, c, doc, 0, 0);
  }

  predicate Undisturbed(c: Context, from: nat, calls: nat) {
    forall k | from <= k < from + calls :: (c.at)(k) == Moment([], false)
  }

  /** Resolution by timestamp without further interference leaves the newer version; on a tie the remote one stays. */
  lemma TimestampKeepsTheNewer(w: World, c: Context, doc: Doc)
    requires c.strategy == TimestampWins && c.acceptOk && c.chunksOk
    requires IsLive(w.log) && Undisturbed(c, w.calls, 3)
    ensures var log := Resolve(w, c, doc).world.log;
      && IsLive(log)
      && Latest(log).mtime == (if doc.mtime > Latest(w.log).mtime then doc.mtime else Latest(w.log).mtime)
      && (log == w.log <==> doc.mtime <= Latest(w.log).mtime)
  {
    assert forall k | w.calls <= k < w.calls + 3 :: (c.at)(k) == Moment([], false);
    assert ForeignCommits([]) == [] && w.log + [] == w.log;
    assert Get(w, c).world == World(w.log, w.calls + 1);
    assert Get(World(w.log, w.calls + 1), c).world == World(w.log, w.calls + 2);
  }

  // -------- what the strategies decide --------

  /** The bridge's commit of body is the last one, put directly over what was there. */
  predicate Wins(before: Log, e: Ended, body: Body) {
    e.world.log == before + [Commit(Bridge, body)] && e.way == Forced(|before|, |before|)
  }

  /** The remote version stays and is accepted, if accepting it works. */
  predicate Yields(c: Context, before: Log, e: Ended) {
    e.world.log == before && e.way == if c.acceptOk then Accepted(|before|) else Failed(Unresolved)
  }

  predicate LeavesOpen(before: Log, e: Ended) {
    e.world.log == before && e.way == Failed(Unresolved)
  }

  lemma QuietGet(w: World, c: Context)
    requires (c.at)(w.calls) == Moment([], false) && IsLive(w.log)
    ensures Get(w, c) == Fetched(World(w.log, w.calls + 1), Got(|w.log|, Latest(w.log)))
  {
    assert ForeignCommits([]) == [] && w.log + [] == w.log;
  }

  /** Without interference the strategies decide on a delete as they are documented: a tie goes to the delete. */
  lemma DeleteStrategyDecides(w: World, c: Context, localMTime: int)
    requires IsLive(w.log) && Undisturbed(c, w.calls, 3)
    ensures var e := ResolveDelete(w, c, localMTime);
      match c.strategy
      case TimestampWins =>
        && (Wins(w.log, e, Tombstone) <==> localMTime >= Latest(w.log).mtime)
        && (Yields(c, w.log, e) <==> localMTime < Latest(w.log).mtime)
      case LocalWins => Wins(w.log, e, Tombstone)
      case RemoteWins => Yields(c, w.log, e)
      case _ => LeavesOpen(w.log, e)
  {
    QuietGet(w, c);
    var w1 := World(w.log, w.calls + 1);
    assert (c.at)(w1.calls) == Moment([], false);
    QuietGet(w1, c);
    assert (c.at)(w.calls + 2) == Moment([], false);
    assert ForeignCommits([]) == [] && w.log + [] == w.log;
  }

  /** The version is written over what was there, or fails with its chunks. */
  predicate WinsWithChunks(c: Context, before: Log, e: Ended, doc: Doc) {
    if c.chunksOk then Wins(before, e, Live(doc)) else e.world.log == before && e.way == Failed(Fault)
  }

  /** And on a Put: a tie goes to the remote version, and a Put that cannot write its chunks fails. */
  lemma PutStrategyDecides(w: World, c: Context, doc: Doc)
    requires IsLive(w.log) && Undisturbed(c, w.calls, 3)
    ensures var e := Resolve(w, c, doc);
      match c.strategy
      case TimestampWins =>
        && (WinsWithChunks(c, w.log, e, doc) <==> doc.mtime > Latest(w.log).mtime)
        && (Yields(c, w.log, e) <==> doc.mtime <= Latest(w.log).mtime)
      case LocalWins => WinsWithChunks(c, w.log, e, doc)
      case RemoteWins => Yields(c, w.log, e)
      case _ => LeavesOpen(w.log, e)
  {
    QuietGet(w, c);
    var w1 := World(w.log, w.calls + 1);
    assert (c.at)(w1.calls) == Moment([], false);
    QuietGet(w1, c);
    assert (c.at)(w.calls + 2) == Moment([], false);
    assert ForeignCommits([]) == [] && w.log + [] == w.log;
  }

  /** A document that is gone when resolution reads it is reported as such, whatever the strategy. */
  lemma GoneIsReported(w: World, c: Context, doc: Doc, localMTime: int)
    requires !IsLive(w.log) && Undisturbed(c, w.calls, 1)
    ensures Resolve(w, c, doc) == Ended(World(w.log, w.calls + 1), Failed(NotFound))
    ensures ResolveDelete(w, c, localMTime) == Ended(World(w.log, w.calls + 1), Failed(NotFound))
    ensures ForceDelete(w, c) == Ended(World(w.log, w.calls + 1), Failed(NotFound))
  {
    assert (c.at)(w.calls) == Moment([], false) && ForeignCommits([]) == [] && w.log + [] == w.log;
  }

  /**
    What a way that resolution ended says about the strategy, under any schedule; newer tells whether a remote version
    is one that the bridge must give way to.
   */
  predicate Obeys(c: Context, e: Ended, from: nat, newer: Doc -> bool) {
    match e.way
    case Forced(k, _) =>
      || c.strategy == LocalWins
      || (c.strategy == TimestampWins && k <= |e.world.log| && ComparedOlder(e.world.log[..k], from, newer))
    case Accepted(read) =>
      && c.acceptOk && 0 < read <= |e.world.log| && IsLive(e.world.log[..read])
      && (c.strategy == RemoteWins || (c.strategy == TimestampWins && newer(Latest(e.world.log[..read]))))
    case _ => true
  }

  /** Some version that was current since then is not newer. */
  predicate ComparedOlder(log: Log, from: nat, newer: Doc -> bool) {
    exists j :: from <= j <= |log| && IsLive(log[..j]) && !newer(Latest(log[..j]))
  }

  lemma ForceKeepsLog(w: World, c: Context, rev: nat, doc: Doc)
    requires rev == |w.log| > 0
    ensures w.log <= Force(w, c, rev, doc).world.log && !Force(w, c, rev, doc).way.Accepted?
    ensures Force(w, c, rev, doc).way.Forced? ==> Force(w, c, rev, doc).way.index == |w.log|
  {
    PutSafe([], World([], 0), c, 0, doc);
  }

  lemma ResolveObeys(w: World, c: Context, doc: Doc)
    ensures Obeys(c, Resolve(w, c, doc), |w.log|, (d: Doc) => doc.mtime <= d.mtime)
  {
    var g := Get(w, c);
    if g.fetch.Got? {
      var h := Get(g.world, c);
      if h.fetch.Got? {
        var log := Resolve(w, c, doc).world.log;
        ForceKeepsLog(h.world, c, h.fetch.rev, doc);
        assert log[..|h.world.log|] == h.world.log;
        assert log[..|h.world.log|][..|h.world.log|] == h.world.log;
      }
    }
  }

  lemma ForceDeleteKeepsLog(w: World, c: Context)
    ensures w.log <= ForceDelete(w, c).world.log && !ForceDelete(w, c).way.Accepted?
    ensures var e := ForceDelete(w, c); e.way.Forced? ==> |w.log| <= e.way.index <= |e.world.log|
  {}

  lemma ResolveDeleteObeys(w: World, c: Context, localMTime: int)
    ensures Obeys(c, ResolveDelete(w, c, localMTime), |w.log|, (d: Doc) => localMTime < d.mtime)
  {
    var g := Get(w, c);
    if g.fetch.Got? {
      ForceDeleteKeepsLog(g.world, c);
      var e := ResolveDelete(w, c, localMTime);
      assert e.world.log[..|g.world.log|] == g.world.log;
      if e.way.Forced? {
        assert e.world.log[..e.way.index][..|g.world.log|] == g.world.log;
      }
    }
  }

  // -------- how far the retries go --------

  /** From then on for so many calls, no call fails unseen, and foreign clients only write live versions. */
  predicate LiveSchedule(c: Context, from: nat, calls: nat) {
    forall k {:trigger Calm(c, k)} | from <= k < from + calls :: Calm(c, k)
  }

  predicate Calm(c: Context, k: nat) {
    !(c.at)(k).fault && forall b | b in (c.at)(k).foreign :: b.Live?
  }

  /** Nobody writes between the read and the write of the i-th attempt. */
  predicate Gap(c: Context, from: nat, i: nat) {
    (c.at)(from + 2 * i + 1).foreign == []
  }

  lemma LandLive(w: World, c: Context)
    requires IsLive(w.log) && Calm(c, w.calls)
    ensures IsLive(Land(w, c).log) && (|Land(w, c).log| == |w.log| <==> (c.at)(w.calls).foreign == [])
  {
    var bodies := (c.at)(w.calls).foreign;
    if bodies != [] {
      assert bodies[|bodies| - 1] in bodies;
      assert Land(w, c).log[|Land(w, c).log| - 1] == Commit(Foreign, bodies[|bodies| - 1]);
    } else {
      assert w.log + ForeignCommits([]) == w.log;
    }
  }

  predicate Tried(w: World, c: Context, a: Attempted) {
    && a.world.calls == w.calls + 2 && IsLive(a.world.log)
    && if Gap(c, w.calls, 0) then a.reply.Saved? else a.reply == Refused(Conflict)
  }

  lemma PutAttemptIs(w: World, c: Context, doc: Doc, rev: nat)
    requires IsLive(w.log) && LiveSchedule(c, w.calls, 2)
    ensures Tried(w, c, PutAttempt(w, c, doc, rev))
  {
    assert Calm(c, w.calls) && Calm(c, w.calls + 1);
    LandLive(w, c);
    LandLive(Get(w, c).world, c);
  }

  lemma DeleteAttemptIs(w: World, c: Context, rev: nat)
    requires IsLive(w.log) && LiveSchedule(c, w.calls, 2)
    ensures var a := DeleteAttempt(w, c, rev);
      && a.world.calls == w.calls + 2 && (a.reply.Refused? ==> IsLive(a.world.log))
      && if Gap(c, w.calls, 0) then a.reply.Saved? else a.reply == Refused(Conflict)
  {
    assert Calm(c, w.calls) && Calm(c, w.calls + 1);
    LandLive(w, c);
    LandLive(Get(w, c).world, c);
  }

  /** The first d attempts from one on find no gap and are not cancelled. */
  predicate AllLose(c: Context, from: nat, attempt: nat, d: nat) {
    forall k | 0 <= k < d :: Loses(c, from, attempt, k)
  }

  predicate Loses(c: Context, from: nat, attempt: nat, k: nat) {
    !Gap(c, from, k) && !(c.cancelled)(attempt + k)
  }

  /** How the first attempt that finds a gap, is cancelled, or is the last one ends the loop. */
  predicate EndsAs(c: Context, gap: bool, i: nat, e: Ended) {
    if gap then e.way.Plain?
    else if i < MAX_RETRIES then ((c.cancelled)(i) ==> e.way == Failed(Cancelled))
    else !e.way.Plain? && e.way != Failed(Cancelled)
  }

  lemma SameLoss(c: Context, from: nat, attempt: nat, d: nat, later: nat)
    requires later == from + 2 * d && LiveSchedule(c, from, 2 * d + 2) && AllLose(c, from, attempt, d + 1)
    ensures Loses(c, later, attempt + d, 0) && LiveSchedule(c, later, 2)
  {
    assert Loses(c, from, attempt, d);
  }

  lemma SameGap(c: Context, from: nat, d: nat, later: nat)
    requires later == from + 2 * d && LiveSchedule(c, from, 2 * d + 2)
    ensures (Gap(c, later, 0) <==> Gap(c, from, d)) && LiveSchedule(c, later, 2)
  {}

  lemma ResolveIsNoCancel(w: World, c: Context, doc: Doc)
    ensures !Resolve(w, c, doc).way.Plain? && Resolve(w, c, doc).way != Failed(Cancelled)
  {}

  lemma ResolveDeleteIsNoCancel(w: World, c: Context, localMTime: int)
    ensures !ResolveDelete(w, c, localMTime).way.Plain? && ResolveDelete(w, c, localMTime).way != Failed(Cancelled)
  {}

  /** A conflict before the last attempt leads on to the next one. */
  lemma PutGoesOn(w: World, c: Context, doc: Doc, rev: nat, attempt: nat, e: Ended) returns (next: World, rev': nat)
    requires attempt < MAX_RETRIES && IsLive(w.log) && LiveSchedule(c, w.calls, 2) && Loses(c, w.calls, attempt, 0)
    requires e == PutLoop(w, c, doc, rev, attempt)
    ensures IsLive(next.log) && next.calls == w.calls + 2 && e == PutLoop(next, c, doc, rev', attempt + 1)
  {
    PutAttemptIs(w, c, doc, rev);
    var a := PutAttempt(w, c, doc, rev);
    next, rev' := a.world, a.rev;
  }

  lemma PutStops(w: World, c: Context, doc: Doc, rev: nat, attempt: nat, gap: bool, e: Ended)
    requires attempt <= MAX_RETRIES && IsLive(w.log) && LiveSchedule(c, w.calls, 2)
    requires gap == Gap(c, w.calls, 0) && e == PutLoop(w, c, doc, rev, attempt)
    ensures EndsAs(c, gap, attempt, e)
  {
    PutAttemptIs(w, c, doc, rev);
    ResolveIsNoCancel(PutAttempt(w, c, doc, rev).world, c, doc);
  }

  lemma {:induction false} PutLoopSkips(w: World, c: Context, doc: Doc, rev: nat, attempt: nat, d: nat, e: Ended) returns (last: World, rev': nat)
    requires attempt + d <= MAX_RETRIES && IsLive(w.log) && LiveSchedule(c, w.calls, 2 * d)
    requires AllLose(c, w.calls, attempt, d) && e == PutLoop(w, c, doc, rev, attempt)
    ensures IsLive(last.log) && last.calls == w.calls + 2 * d && e == PutLoop(last, c, doc, rev', attempt + d)
    decreases d
  {
    last, rev' := w, rev;
    if d > 0 {
      last, rev' := PutLoopSkips(w, c, doc, rev, attempt, d - 1, e);
      SameLoss(c, w.calls, attempt, d - 1, last.calls);
      last, rev' := PutGoesOn(last, c, doc, rev', attempt + (d - 1), e);
    }
  }

  lemma PutReaches(w: World, c: Context, doc: Doc, rev: nat, attempt: nat, d: nat, gap: bool, e: Ended) returns (last: World, rev': nat)
    requires attempt + d <= MAX_RETRIES && IsLive(w.log) && LiveSchedule(c, w.calls, 2 * d + 2)
    requires AllLose(c, w.calls, attempt, d)
    requires gap == Gap(c, w.calls, d) && e == PutLoop(w, c, doc, rev, attempt)
    ensures IsLive(last.log) && LiveSchedule(c, last.calls, 2) && gap == Gap(c, last.calls, 0)
    ensures e == PutLoop(last, c, doc, rev', attempt + d)
  {
    ShorterSchedule(c, w.calls, 2 * d + 2, 2 * d);
    last, rev' := PutLoopSkips(w, c, doc, rev, attempt, d, e);
    SameGap(c, w.calls, d, last.calls);
  }

  lemma PutLoopEnds(w: World, c: Context, doc: Doc, rev: nat, attempt: nat, d: nat, gap: bool, e: Ended)
    requires attempt + d <= MAX_RETRIES && IsLive(w.log) && LiveSchedule(c, w.calls, 2 * d + 2)
    requires AllLose(c, w.calls, attempt, d)
    requires gap == Gap(c, w.calls, d) && e == PutLoop(w, c, doc, rev, attempt)
    ensures EndsAs(c, gap, attempt + d, e)
  {
    var last, rev' := PutReaches(w, c, doc, rev, attempt, d, gap, e);
    PutStops(last, c, doc, rev', attempt + d, gap, e);
  }

  /** A conflict before the last attempt leads on to the next one. */
  lemma DeleteGoesOn(w: World, c: Context, rev: nat, localMTime: int, attempt: nat, e: Ended) returns (next: World, rev': nat)
    requires attempt < MAX_RETRIES && IsLive(w.log) && LiveSchedule(c, w.calls, 2) && Loses(c, w.calls, attempt, 0)
    requires e == DeleteLoop(w, c, rev, localMTime, attempt)
    ensures IsLive(next.log) && next.calls == w.calls + 2 && e == DeleteLoop(next, c, rev', localMTime, attempt + 1)
  {
    DeleteAttemptIs(w, c, rev);
    var a := DeleteAttempt(w, c, rev);
    next, rev' := a.world, a.rev;
  }

  lemma DeleteStops(w: World, c: Context, rev: nat, localMTime: int, attempt: nat, gap: bool, e: Ended)
    requires attempt <= MAX_RETRIES && IsLive(w.log) && LiveSchedule(c, w.calls, 2)
    requires gap == Gap(c, w.calls, 0) && e == DeleteLoop(w, c, rev, localMTime, attempt)
    ensures EndsAs(c, gap, attempt, e)
  {
    DeleteAttemptIs(w, c, rev);
    ResolveDeleteIsNoCancel(DeleteAttempt(w, c, rev).world, c, localMTime);
  }

  lemma {:induction false} DeleteLoopSkips(w: World, c: Context, rev: nat, localMTime: int, attempt: nat, d: nat, e: Ended) returns (last: World, rev': nat)
    requires attempt + d <= MAX_RETRIES && IsLive(w.log) && LiveSchedule(c, w.calls, 2 * d)
    requires AllLose(c, w.calls, attempt, d) && e == DeleteLoop(w, c, rev, localMTime, attempt)
    ensures IsLive(last.log) && last.calls == w.calls + 2 * d && e == DeleteLoop(last, c, rev', localMTime, attempt + d)
    decreases d
  {
    last, rev' := w, rev;
    if d > 0 {
      last, rev' := DeleteLoopSkips(w, c, rev, localMTime, attempt, d - 1, e);
      SameLoss(c, w.calls, attempt, d - 1, last.calls);
      last, rev' := DeleteGoesOn(last, c, rev', localMTime, attempt + (d - 1), e);
    }
  }

  lemma DeleteReaches(w: World, c: Context, rev: nat, localMTime: int, attempt: nat, d: nat, gap: bool, e: Ended) returns (last: World, rev': nat)
    requires attempt + d <= MAX_RETRIES && IsLive(w.log) && LiveSchedule(c, w.calls, 2 * d + 2)
    requires AllLose(c, w.calls, attempt, d)
    requires gap == Gap(c, w.calls, d) && e == DeleteLoop(w, c, rev, localMTime, attempt)
    ensures IsLive(last.log) && LiveSchedule(c, last.calls, 2) && gap == Gap(c, last.calls, 0)
    ensures e == DeleteLoop(last, c, rev', localMTime, attempt + d)
  {
    ShorterSchedule(c, w.calls, 2 * d + 2, 2 * d);
    last, rev' := DeleteLoopSkips(w, c, rev, localMTime, attempt, d, e);
    SameGap(c, w.calls, d, last.calls);
  }

  lemma DeleteLoopEnds(w: World, c: Context, rev: nat, localMTime: int, attempt: nat, d: nat, gap: bool, e: Ended)
    requires attempt + d <= MAX_RETRIES && IsLive(w.log) && LiveSchedule(c, w.calls, 2 * d + 2)
    requires AllLose(c, w.calls, attempt, d)
    requires gap == Gap(c, w.calls, d) && e == DeleteLoop(w, c, rev, localMTime, attempt)
    ensures EndsAs(c, gap, attempt + d, e)
  {
    var last, rev' := DeleteReaches(w, c, rev, localMTime, attempt, d, gap, e);
    DeleteStops(last, c, rev', localMTime, attempt + d, gap, e);
  }

  /** The first attempt with a gap, or the last one. */
  lemma FirstGap(c: Context, from: nat) returns (i: nat)
    requires forall j :: !(c.cancelled)(j)
    ensures i <= MAX_RETRIES && AllLose(c, from, 0, i) && (i == MAX_RETRIES || Gap(c, from, i))
    ensures Gap(c, from, i) <==> exists j :: 0 <= j <= MAX_RETRIES && Gap(c, from, j)
  {
    i := 0;
    while i < MAX_RETRIES && !Gap(c, from, i)
      invariant i <= MAX_RETRIES && AllLose(c, from, 0, i)
      invariant forall j | 0 <= j < i :: !Gap(c, from, j)
    {
      assert Loses(c, from, 0, i);
      i := i + 1;
    }
  }

  lemma ShorterSchedule(c: Context, from: nat, calls: nat, fewer: nat)
    requires LiveSchedule(c, from, calls) && fewer <= calls
    ensures LiveSchedule(c, from, fewer)
  {}

  lemma PutEnds(w: World, c: Context, doc: Doc, i: nat)
    requires i <= MAX_RETRIES && IsLive(w.log) && LiveSchedule(c, w.calls, 2 * i + 2) && AllLose(c, w.calls, 0, i)
    ensures EndsAs(c, Gap(c, w.calls, i), i, PutDocumentWithRetry(w, c, doc))
  {
    PutLoopEnds(w, c, doc, 0, 0, i, Gap(c, w.calls, i), PutDocumentWithRetry(w, c, doc));
  }

  lemma DeleteEnds(w: World, c: Context, initialRev: nat, localMTime: int, i: nat)
    requires i <= MAX_RETRIES && IsLive(w.log) && LiveSchedule(c, w.calls, 2 * i + 2) && AllLose(c, w.calls, 0, i)
    ensures EndsAs(c, Gap(c, w.calls, i), i, DeleteDocumentWithRetry(w, c, initialRev, localMTime))
  {
    DeleteLoopEnds(w, c, initialRev, localMTime, 0, i, Gap(c, w.calls, i), DeleteDocumentWithRetry(w, c, initialRev, localMTime));
  }

  /**
    On a live document, among clients that only write live versions, a Put commits without asking the strategy if and
    only if nobody writes between the read and the write of one of its four attempts.
   */
  lemma PutCommitsIffGap(w: World, c: Context, doc: Doc)
    requires IsLive(w.log) && LiveSchedule(c, w.calls, 2 * MAX_RETRIES + 2) && forall j :: !(c.cancelled)(j)
    ensures PutDocumentWithRetry(w, c, doc).way.Plain? <==> exists i :: 0 <= i <= MAX_RETRIES && Gap(c, w.calls, i)
  {
    var i := FirstGap(c, w.calls);
    ShorterSchedule(c, w.calls, 2 * MAX_RETRIES + 2, 2 * i + 2);
    PutEnds(w, c, doc, i);
  }

  /** So does a delete. */
  lemma DeleteCommitsIffGap(w: World, c: Context, initialRev: nat, localMTime: int)
    requires IsLive(w.log) && LiveSchedule(c, w.calls, 2 * MAX_RETRIES + 2) && forall j :: !(c.cancelled)(j)
    ensures DeleteDocumentWithRetry(w, c, initialRev, localMTime).way.Plain? <==>
      exists i :: 0 <= i <= MAX_RETRIES && Gap(c, w.calls, i)
  {
    var i := FirstGap(c, w.calls);
    ShorterSchedule(c, w.calls, 2 * MAX_RETRIES + 2, 2 * i + 2);
    DeleteEnds(w, c, initialRev, localMTime, i);
  }

  /** A conflict at an attempt that is cancelled while waiting for the next ends the operation. */
  lemma CancelledEnds(w: World, c: Context, doc: Doc, initialRev: nat, localMTime: int, i: nat)
    requires IsLive(w.log) && LiveSchedule(c, w.calls, 2 * i + 2) && i < MAX_RETRIES
    requires AllLose(c, w.calls, 0, i) && !Gap(c, w.calls, i) && (c.cancelled)(i)
    ensures PutDocumentWithRetry(w, c, doc).way == Failed(Cancelled)
    ensures DeleteDocumentWithRetry(w, c, initialRev, localMTime).way == Failed(Cancelled)
  {
    PutEnds(w, c, doc, i);
    DeleteEnds(w, c, initialRev, localMTime, i);
  }

  /**
    With LocalWins, among clients that only write live versions, resolution commits if and only if nobody writes between
    its last read and its write, whatever happens before.
   */
  lemma LocalCommitsIffUntouched(w: World, c: Context, doc: Doc, localMTime: int)
    requires c.strategy == LocalWins && c.chunksOk && IsLive(w.log) && LiveSchedule(c, w.calls, 3)
    ensures Resolve(w, c, doc).way.Forced? <==> (c.at)(w.calls + 2).foreign == []
    ensures ResolveDelete(w, c, localMTime).way.Forced? <==> (c.at)(w.calls + 2).foreign == []
  {
    assert Calm(c, w.calls) && Calm(c, w.calls + 1) && Calm(c, w.calls + 2);
    LandLive(w, c);
    var w1 := Get(w, c).world;
    LandLive(w1, c);
    LandLive(Get(w1, c).world, c);
  }

  predicate OnlyOlder(c: Context, from: nat, calls: nat, mtime: int) {
    forall k {:trigger Older(c, k, mtime)} | from <= k < from + calls :: Older(c, k, mtime)
  }

  predicate Older(c: Context, k: nat, mtime: int) {
    forall b | b in (c.at)(k).foreign && b.Live? :: b.doc.mtime < mtime
  }

  lemma LandOlder(w: World, c: Context, mtime: int)
    requires IsLive(w.log) && Calm(c, w.calls) && Older(c, w.calls, mtime) && Latest(w.log).mtime < mtime
    ensures IsLive(Land(w, c).log) && Latest(Land(w, c).log).mtime < mtime
  {
    LandLive(w, c);
    var bodies := (c.at)(w.calls).foreign;
    if bodies == [] {
      assert w.log + ForeignCommits([]) == w.log;
    } else {
      assert bodies[|bodies| - 1] in bodies;
      assert Land(w, c).log[|Land(w, c).log| - 1] == Commit(Foreign, bodies[|bodies| - 1]);
    }
  }

  /** So it does with TimestampWins, where everything that others write is older. */
  lemma NewerCommitsIffUntouched(w: World, c: Context, doc: Doc)
    requires c.strategy == TimestampWins && c.chunksOk && IsLive(w.log) && LiveSchedule(c, w.calls, 3)
    requires OnlyOlder(c, w.calls, 3, doc.mtime) && Latest(w.log).mtime < doc.mtime
    ensures Resolve(w, c, doc).way.Forced? <==> (c.at)(w.calls + 2).foreign == []
  {
    assert Calm(c, w.calls) && Calm(c, w.calls + 1) && Calm(c, w.calls + 2);
    assert Older(c, w.calls, doc.mtime) && Older(c, w.calls + 1, doc.mtime);
    LandOlder(w, c, doc.mtime);
    var w1 := Get(w, c).world;
    LandOlder(w1, c, doc.mtime);
    LandLive(Get(w1, c).world, c);
  }

  // -------- errors --------

  lemma LastLoss(c: Context, from: nat, later: nat)
    requires later == from + 6 && LiveSchedule(c, from, 11) && AllLose(c, from, 0, 4)
    ensures !Gap(c, later, 0) && LiveSchedule(c, later, 2) && LiveSchedule(c, later + 2, 3)
  {
    assert Loses(c, from, 0, 3);
  }

  /** After four attempts that lost, resolution goes on from what the last one left. */
  lemma PutAsks(w: World, c: Context, doc: Doc, rev: nat, e: Ended) returns (asked: World)
    requires IsLive(w.log) && LiveSchedule(c, w.calls, 11) && AllLose(c, w.calls, 0, 4) && e == PutLoop(w, c, doc, rev, 0)
    ensures IsLive(asked.log) && asked.calls == w.calls + 8 && LiveSchedule(c, asked.calls, 3)
    ensures e == Resolve(asked, c, doc)
  {
    ShorterSchedule(c, w.calls, 11, 6);
    var last, rev' := PutLoopSkips(w, c, doc, rev, 0, 3, e);
    LastLoss(c, w.calls, last.calls);
    PutAttemptIs(last, c, doc, rev');
    asked := PutAttempt(last, c, doc, rev').world;
  }

  /** After four attempts that lost, resolution goes on from what the last one left. */
  lemma DeleteAsks(w: World, c: Context, rev: nat, localMTime: int, e: Ended) returns (asked: World)
    requires IsLive(w.log) && LiveSchedule(c, w.calls, 11) && AllLose(c, w.calls, 0, 4) && e == DeleteLoop(w, c, rev, localMTime, 0)
    ensures IsLive(asked.log) && asked.calls == w.calls + 8 && LiveSchedule(c, asked.calls, 3)
    ensures e == ResolveDelete(asked, c, localMTime)
  {
    ShorterSchedule(c, w.calls, 11, 6);
    var last, rev' := DeleteLoopSkips(w, c, rev, localMTime, 0, 3, e);
    LastLoss(c, w.calls, last.calls);
    DeleteAttemptIs(last, c, rev');
    asked := DeleteAttempt(last, c, rev').world;
  }

  /** With LocalWins, an operation that lost four times still commits if nobody writes before its last call, and only then. */
  lemma LocalWinsInTheEnd(w: World, c: Context, doc: Doc, initialRev: nat, localMTime: int)
    requires c.strategy == LocalWins && c.chunksOk && IsLive(w.log)
    requires LiveSchedule(c, w.calls, 11) && AllLose(c, w.calls, 0, 4)
    ensures PutDocumentWithRetry(w, c, doc).way.Forced? <==> (c.at)(w.calls + 10).foreign == []
    ensures DeleteDocumentWithRetry(w, c, initialRev, localMTime).way.Forced? <==> (c.at)(w.calls + 10).foreign == []
  {
    var put := PutAsks(w, c, doc, 0, PutDocumentWithRetry(w, c, doc));
    LocalCommitsIffUntouched(put, c, doc, localMTime);
    var del := DeleteAsks(w, c, initialRev, localMTime, DeleteDocumentWithRetry(w, c, initialRev, localMTime));
    LocalCommitsIffUntouched(del, c, doc, localMTime);
  }

  lemma {:induction false} PutLoopTakesCalls(w: World, c: Context, doc: Doc, rev: nat, attempt: nat)
    requires attempt <= MAX_RETRIES
    ensures PutLoop(w, c, doc, rev, attempt).world.calls >= w.calls + 2
    decreases MAX_RETRIES - attempt
  {
    PutAttemptCalls(w, c, doc, rev);
    var a := PutAttempt(w, c, doc, rev);
    match TurnAfter(c, attempt, a) {
      case Finish(_) =>
      case AskStrategy =>
      case Again => PutLoopTakesCalls(a.world, c, doc, a.rev, attempt + 1);
    }
  }

  lemma FailureGoesOn(w: World, c: Context, doc: Doc)
    requires (c.at)(w.calls + 1).fault && !(c.cancelled)(0) && c.idMentionsConflict
    ensures PutDocumentWithRetry(w, c, doc).world.calls >= w.calls + 4
  {
    PutAttemptCalls(w, c, doc, 0);
    var a := PutAttempt(w, c, doc, 0);
    assert TurnAfter(c, 0, a) == Again;
    PutLoopTakesCalls(a.world, c, doc, a.rev, 1);
  }

  lemma FailureEnds(w: World, c: Context, doc: Doc)
    requires (c.at)(w.calls + 1).fault && !c.idMentionsConflict
    ensures var e := PutDocumentWithRetry(w, c, doc); e.world.calls == w.calls + 2 && e.way == Failed(Fault)
  {
    PutAttemptCalls(w, c, doc, 0);
    assert TurnAfter(c, 0, PutAttempt(w, c, doc, 0)) == Finish(Failed(Fault));
  }

  /** A failure that is no conflict ends a Put at once if and only if the document's ID does not contain "Conflict". */
  lemma FailureEndsIff(w: World, c: Context, doc: Doc)
    requires (c.at)(w.calls + 1).fault && !(c.cancelled)(0)
    ensures var e := PutDocumentWithRetry(w, c, doc);
      e.world.calls == w.calls + 2 && e.way == Failed(Fault) <==> !c.idMentionsConflict
  {
    if c.idMentionsConflict {
      FailureGoesOn(w, c, doc);
    } else {
      FailureEnds(w, c, doc);
    }
  }

  /** Where the read fails, the revision read before decides: the write goes through if and only if it is current. */
  lemma KeptRevisionDecides(w: World, c: Context, doc: Doc, rev: nat)
    requires (c.at)(w.calls) == Moment([], true) && (c.at)(w.calls + 1) == Moment([], false)
    ensures PutAttempt(w, c, doc, rev).reply.Saved? <==> if rev == 0 then !IsLive(w.log) else rev == |w.log|
    ensures DeleteAttempt(w, c, rev).reply.Saved? <==> IsLive(w.log) && rev == |w.log|
    ensures PutAttempt(w, c, doc, rev).rev == rev == DeleteAttempt(w, c, rev).rev
  {
    assert ForeignCommits([]) == [] && w.log + [] == w.log;
  }

  /** A document that was deleted after it had been read is not written again: the old revision is kept to the end. */
  lemma {:induction false} DeletedMeanwhileFails(w: World, c: Context, doc: Doc, rev: nat, attempt: nat)
    requires attempt <= MAX_RETRIES && !IsLive(w.log) && 0 < rev != |w.log| && forall j :: !(c.cancelled)(j)
    requires Undisturbed(c, w.calls, 2 * (MAX_RETRIES - attempt) + 3)
    ensures var e := PutLoop(w, c, doc, rev, attempt); e.way == Failed(NotFound) && e.world.log == w.log
    decreases MAX_RETRIES - attempt
  {
    assert (c.at)(w.calls) == Moment([], false) && (c.at)(w.calls + 1) == Moment([], false);
    assert ForeignCommits([]) == [] && w.log + [] == w.log;
    var a := PutAttempt(w, c, doc, rev);
    assert a == Attempted(World(w.log, w.calls + 2), rev, Refused(Conflict));
    if attempt < MAX_RETRIES {
      DeletedMeanwhileFails(a.world, c, doc, rev, attempt + 1);
    } else {
      GoneIsReported(a.world, c, doc, 0);
    }
  }

  // -------- the strategy over whole operations --------

  lemma PutAttemptGrows(w: World, c: Context, doc: Doc, rev: nat)
    ensures w.log <= PutAttempt(w, c, doc, rev).world.log
  {}

  lemma DeleteAttemptGrows(w: World, c: Context, rev: nat)
    ensures w.log <= DeleteAttempt(w, c, rev).world.log
  {}

  lemma ObeysEarlier(c: Context, e: Ended, from: nat, earlier: nat, newer: Doc -> bool)
    requires Obeys(c, e, from, newer) && earlier <= from
    ensures Obeys(c, e, earlier, newer)
  {
    if e.way.Forced? && c.strategy == TimestampWins {
      var log := e.world.log[..e.way.index];
      var j :| from <= j <= |log| && IsLive(log[..j]) && !newer(Latest(log[..j]));
      assert earlier <= j;
    }
  }

  lemma {:induction false} PutLoopObeys(w: World, c: Context, doc: Doc, rev: nat, attempt: nat)
    requires attempt <= MAX_RETRIES
    ensures Obeys(c, PutLoop(w, c, doc, rev, attempt), |w.log|, (d: Doc) => doc.mtime <= d.mtime)
    decreases MAX_RETRIES - attempt
  {
    PutAttemptGrows(w, c, doc, rev);
    var a := PutAttempt(w, c, doc, rev);
    var newer := (d: Doc) => doc.mtime <= d.mtime;
    match TurnAfter(c, attempt, a) {
      case Finish(_) =>
      case AskStrategy =>
        ResolveObeys(a.world, c, doc);
        ObeysEarlier(c, Resolve(a.world, c, doc), |a.world.log|, |w.log|, newer);
      case Again =>
        PutLoopObeys(a.world, c, doc, a.rev, attempt + 1);
        ObeysEarlier(c, PutLoop(a.world, c, doc, a.rev, attempt + 1), |a.world.log|, |w.log|, newer);
    }
  }

  lemma {:induction false} DeleteLoopObeys(w: World, c: Context, rev: nat, localMTime: int, attempt: nat)
    requires attempt <= MAX_RETRIES
    ensures Obeys(c, DeleteLoop(w, c, rev, localMTime, attempt), |w.log|, (d: Doc) => localMTime < d.mtime)
    decreases MAX_RETRIES - attempt
  {
    DeleteAttemptGrows(w, c, rev);
    var a := DeleteAttempt(w, c, rev);
    var newer := (d: Doc) => localMTime < d.mtime;
    match TurnAfter(c, attempt, a) {
      case Finish(_) =>
      case AskStrategy =>
        ResolveDeleteObeys(a.world, c, localMTime);
        ObeysEarlier(c, ResolveDelete(a.world, c, localMTime), |a.world.log|, |w.log|, newer);
      case Again =>
        DeleteLoopObeys(a.world, c, a.rev, localMTime, attempt + 1);
        ObeysEarlier(c, DeleteLoop(a.world, c, a.rev, localMTime, attempt + 1), |a.world.log|, |w.log|, newer);
    }
  }

  /**
    Under any schedule, what the strategy does not allow does not happen: nothing is forced with RemoteWins, and with
    TimestampWins only over a version that was found older; nothing is accepted with LocalWins, and with TimestampWins
    only a version that is not older. With another strategy neither happens.
   */
  lemma PutObeysStrategy(w: World, c: Context, doc: Doc)
    ensures PutDocumentWithRetry(w, c, doc).way.Forced? ==> c.chunksOk
    ensures Obeys(c, PutDocumentWithRetry(w, c, doc), |w.log|, (d: Doc) => doc.mtime <= d.mtime)
  {
    PutLoopObeys(w, c, doc, 0, 0);
    PutLoopForces(w, c, doc, 0, 0);
  }

  lemma {:induction false} PutLoopForces(w: World, c: Context, doc: Doc, rev: nat, attempt: nat)
    requires attempt <= MAX_RETRIES
    ensures PutLoop(w, c, doc, rev, attempt).way.Forced? ==> c.chunksOk
    decreases MAX_RETRIES - attempt
  {
    var a := PutAttempt(w, c, doc, rev);
    match TurnAfter(c, attempt, a) {
      case Finish(_) =>
      case AskStrategy =>
      case Again => PutLoopForces(a.world, c, doc, a.rev, attempt + 1);
    }
  }

  /** Likewise for a delete, where a version of the same time gives way. */
  lemma DeleteObeysStrategy(w: World, c: Context, initialRev: nat, localMTime: int)
    ensures Obeys(c, DeleteDocumentWithRetry(w, c, initialRev, localMTime), |w.log|, (d: Doc) => localMTime < d.mtime)
  {
    DeleteLoopObeys(w, c, initialRev, localMTime, 0);
  }

  // -------- what the strategy does not protect --------

  /** Without a race the strategy is never asked: the first attempt replaces any version, older or newer. */
  lemma UndisturbedPutReplacesAnything(w: World, c: Context, doc: Doc)
    requires Undisturbed(c, w.calls, 2)
    ensures PutDocumentWithRetry(w, c, doc) ==
      Ended(World(w.log + [Commit(Bridge, Live(doc))], w.calls + 2), Plain(|w.log|, if IsLive(w.log) then |w.log| else 0))
  {
    assert (c.at)(w.calls) == Moment([], false) && (c.at)(w.calls + 1) == Moment([], false);
    assert ForeignCommits([]) == [];
    assert w.log + [] == w.log;
  }

  /** And the first attempt of a delete removes any version. */
  lemma UndisturbedDeleteRemovesAnything(w: World, c: Context, initialRev: nat, localMTime: int)
    requires Undisturbed(c, w.calls, 2) && IsLive(w.log)
    ensures DeleteDocumentWithRetry(w, c, initialRev, localMTime) ==
      Ended(World(w.log + [Commit(Bridge, Tombstone)], w.calls + 2), Plain(|w.log|, |w.log|))
  {
    assert (c.at)(w.calls) == Moment([], false) && (c.at)(w.calls + 1) == Moment([], false);
    assert ForeignCommits([]) == [] && w.log + [] == w.log;
  }

  /** A forced delete reads again after the comparison, and can remove a version newer than the local one. */
  lemma ForcedDeleteCanRemoveNewer(localMTime: int, later: Doc)
    requires later.mtime > localMTime
    ensures var w := World([Commit(Foreign, Live(Doc(localMTime, [])))], 0);
      var c := Context(k => Moment(if k == 1 then [Live(later)] else [], false), k => false, false, TimestampWins, true, true);
      var e := ResolveDelete(w, c, localMTime);
      && e.way == Forced(2, 2)
      && Latest(e.world.log[..2]).mtime > localMTime && e.world.log[2] == Commit(Bridge, Tombstone)
  {
    var w := World([Commit(Foreign, Live(Doc(localMTime, [])))], 0);
    var c := Context(k => Moment(if k == 1 then [Live(later)] else [], false), k => false, false, TimestampWins, true, true);
    assert ForeignCommits([]) == [] && w.log + [] == w.log;
    assert ForeignCommits([Live(later)]) == [Commit(Foreign, Live(later))];
    var seen := World(w.log, 1);
    assert Get(w, c) == Fetched(seen, Got(1, Doc(localMTime, [])));
    var next := World(w.log + [Commit(Foreign, Live(later))], 2);
    assert Get(seen, c) == Fetched(next, Got(2, later));
    assert next.log + [] == next.log;
    var e := ForceDelete(seen, c);
    assert e.world.log == next.log + [Commit(Bridge, Tombstone)];
    assert e.world.log[..2] == next.log;
  }
}
