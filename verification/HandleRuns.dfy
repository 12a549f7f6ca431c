/**
 Handles running against direct writers: every interleaving keeps the invariant
 under which a committed handle behaves as if it had run alone at its commit.
 */
module HandleRuns {
  import opened Values
  import opened Log
  import opened SecondaryIndex
  import opened Handles

  /** What a caller did through one handle and was answered. */
  datatype Event =
    | Read(k: Key, rev: nat, res: Option<Data>, own: bool)
    | Did(k: Key, op: Op, data: Data, expiresAt: int)

  type Trace = seq<Event>

  // ----- the serial reference -------------------------------------------------------------------------

  datatype Doc = Doc(data: Data, expiresAt: int)

  type Docs = map<Key, Doc>

  /** The data an update leaves: its own, and the stored caller-supplied key. */
  ghost function Replacing(data: Data, was: Data): (kept: Data)
    ensures KeepsKey(data, was, kept)
  {
    PreservedKeeps(data, was);
    var kept: Data :| KeepsKey(data, was, kept);
    kept
  }

  /** One operation run directly against the documents. */
  ghost function SerialStep(docs: Docs, e: Event, ttl: string -> int): Docs {
    if e.Read? then docs
    else
      match e.op
      case Insert => docs[e.k := Doc(e.data, if e.expiresAt != 0 then e.expiresAt else ttl(e.k.col))]
      case Update =>
        if e.k !in docs then docs
        else
          var was := docs[e.k];
          docs[e.k := Doc(Replacing(e.data, was.data), if e.expiresAt != 0 then e.expiresAt else was.expiresAt)]
      case Delete => docs - {e.k}
  }

  ghost function SerialRun(docs: Docs, t: Trace, ttl: string -> int): Docs {
    if t == [] then docs
    else SerialStep(SerialRun(docs, t[..|t| - 1], ttl), t[|t| - 1], ttl)
  }

  /** The answer a document collection gives to an event; own writes are read back without the stored key. */
  predicate Answered(docs: Docs, e: Event) {
    match e
    case Read(k, _, res, own) =>
      && (res.Some? <==> k in docs)
      && (res.Some? ==> if own then res.value == docs[k].data - {KEY_FIELD} else res.value == docs[k].data)
    case Did(k, op, _, _) => op.Insert? <==> k !in docs
  }

  /** Run from `docs`, every event of the trace is answered as recorded. */
  ghost predicate Serial(docs: Docs, t: Trace, ttl: string -> int) {
    forall i :: 0 <= i < |t| ==> Answered(SerialRun(docs, t[..i], ttl), t[i])
  }

  // ----- the net effect of a trace on one document -----------------------------------------------------

  /** `last` is the deadline of the last update, `kept` the last one that was not zero. */
  datatype Net =
    | Untouched
    | Inserted(data: Data, expiresAt: int)
    | Updated(data: Data, last: int, kept: int)
    | Removed
    | Gone

  function NetStep(n: Net, e: Event, k: Key): Net {
    if e.Read? || e.k != k then n
    else
      match e.op
      case Insert => Inserted(e.data, e.expiresAt)
      case Update =>
        (match n
         case Inserted(_, was) => Inserted(e.data, if e.expiresAt != 0 then e.expiresAt else was)
         case Updated(_, _, kept) => Updated(e.data, e.expiresAt, if e.expiresAt != 0 then e.expiresAt else kept)
         case Untouched => Updated(e.data, e.expiresAt, e.expiresAt)
         case _ => n)
      case Delete => if n.Inserted? || n.Gone? then Gone else Removed
  }

  function NetOf(t: Trace, k: Key): Net {
    if t == [] then Untouched else NetStep(NetOf(t[..|t| - 1], k), t[|t| - 1], k)
  }

  function DocAt(docs: Docs, k: Key): Option<Doc> {
    if k in docs then Some(docs[k]) else None
  }

  function NetDoc(n: Net, base: Option<Doc>, k: Key, ttl: string -> int): Option<Doc> {
    match n
    case Untouched => base
    case Inserted(d, e) => Some(Doc(d, if e != 0 then e else ttl(k.col)))
    case Updated(d, _, kept) =>
      if base.None? then None
      else Some(Doc(Preserved(d, base.value.data), if kept != 0 then kept else base.value.expiresAt))
    case Removed => None
    case Gone => None
  }

  // ----- what a handle's trace may hold ---------------------------------------------------------------

  /** Every version of every document ever installed. */
  type Versions = map<(Key, nat), Row>

  ghost predicate ReadOk(n: Net, e: Event, observed: map<Key, Obs>, hist: Versions)
    requires e.Read?
  {
    match n
    case Inserted(d, _) => e.own && e.res == Some(d) && e.rev == 0 && KEY_FIELD !in d
    case Updated(d, _, _) => e.own && e.res == Some(d) && e.k in observed && e.rev == observed[e.k].rev && KEY_FIELD !in d
    case Removed => e.own && e.res == None
    case _ =>
      && !e.own && e.k in observed && observed[e.k].present == e.res.Some? && observed[e.k].rev == e.rev
      && (e.res.Some? ==> (e.k, e.rev) in hist && hist[(e.k, e.rev)].data == e.res.value)
  }

  ghost predicate DidOk(n: Net, e: Event, observed: map<Key, Obs>, owned: set<Key>)
    requires e.Did?
  {
    && (!e.op.Delete? ==> KEY_FIELD !in e.data)
    && (if e.op.Insert? then n.Untouched? && e.k in owned
        else n.Inserted? || ((n.Untouched? || n.Updated?) && e.k in observed && observed[e.k].present))
  }

  ghost predicate EventOk(n: Net, e: Event, observed: map<Key, Obs>, hist: Versions, owned: set<Key>) {
    if e.Read? then ReadOk(n, e, observed, hist) else DidOk(n, e, observed, owned)
  }

  ghost predicate EventsOk(t: Trace, observed: map<Key, Obs>, hist: Versions, owned: set<Key>) {
    forall i :: 0 <= i < |t| ==> EventOk(NetOf(t[..i], t[i].k), t[i], observed, hist, owned)
  }

  /** The write held for a document is the net effect of what was staged on it. */
  ghost predicate WriteFits(n: Net, k: Key, writes: map<Key, Write>, observed: map<Key, Obs>) {
    match n
    case Untouched => k !in writes
    case Gone => k !in writes
    case Inserted(d, e) => k in writes && writes[k] == Write(Insert, d, 0, e)
    case Updated(d, last, _) =>
      k in writes && k in observed && observed[k].present && writes[k] == Write(Update, d, observed[k].rev, last)
    case Removed =>
      k in writes && k in observed && observed[k].present && writes[k].op.Delete? && writes[k].base == observed[k].rev
  }

  ghost predicate WritesFit(t: Trace, writes: map<Key, Write>, observed: map<Key, Obs>) {
    forall k :: WriteFits(NetOf(t, k), k, writes, observed)
  }

  // ----- one document through a trace ------------------------------------------------------------------

  /** What a committing handle may rely on: its own ids are unused, its observations still hold. */
  ghost predicate BaseOk(docs: Docs, observed: map<Key, Obs>, owned: set<Key>) {
    && (forall k :: k in owned ==> k !in docs)
    && (forall k :: k in observed ==> (observed[k].present <==> k in docs))
  }

  lemma {:induction false} NetShape(t: Trace, k: Key, observed: map<Key, Obs>, hist: Versions, owned: set<Key>)
    requires EventsOk(t, observed, hist, owned)
    ensures
      match NetOf(t, k)
      case Inserted(d, _) => k in owned && KEY_FIELD !in d
      case Gone => k in owned
      case Updated(d, last, kept) => k in observed && observed[k].present && KEY_FIELD !in d && (last != 0 ==> kept == last)
      case Removed => k in observed && observed[k].present
      case Untouched => true
  {
    if t != [] {
      var n := |t| - 1;
      EventsFront(t, observed, hist, owned);
      NetShape(t[..n], k, observed, hist, owned);
      assert EventOk(NetOf(t[..n], t[n].k), t[n], observed, hist, owned);
    }
  }

  lemma EventsFront(t: Trace, observed: map<Key, Obs>, hist: Versions, owned: set<Key>)
    requires EventsOk(t, observed, hist, owned) && t != []
    ensures EventsOk(t[..|t| - 1], observed, hist, owned)
  {
    var n := |t| - 1;
    forall i | 0 <= i < n
      ensures EventOk(NetOf(t[..n][..i], t[..n][i].k), t[..n][i], observed, hist, owned)
    {
      assert t[..n][..i] == t[..i];
    }
  }

  lemma PreservedTwice(d: Data, e: Data, was: Data)
    requires KEY_FIELD !in d && KEY_FIELD !in e
    ensures Preserved(e, Preserved(d, was)) == Preserved(e, was)
    ensures Preserved(e, d) == e
  {
  }

  /** Running a trace serially changes each document by its net effect. */
  lemma {:induction false} SerialIsNet(docs: Docs, t: Trace, k: Key, ttl: string -> int, observed: map<Key, Obs>, hist: Versions,
                                       owned: set<Key>)
    requires EventsOk(t, observed, hist, owned) && BaseOk(docs, observed, owned)
    ensures DocAt(SerialRun(docs, t, ttl), k) == NetDoc(NetOf(t, k), DocAt(docs, k), k, ttl)
  {
    if t != [] {
      var n := |t| - 1;
      var e := t[n];
      EventsFront(t, observed, hist, owned);
      SerialIsNet(docs, t[..n], k, ttl, observed, hist, owned);
      NetShape(t[..n], k, observed, hist, owned);
      assert EventOk(NetOf(t[..n], e.k), e, observed, hist, owned);
      if e.Did? && e.k == k && e.op.Update? {
        var was := DocAt(SerialRun(docs, t[..n], ttl), k);
        PreservedKeeps(e.data, if was.Some? then was.value.data else map[]);
        var net := NetOf(t[..n], k);
        if net.Inserted? {
          PreservedTwice(net.data, e.data, map[]);
        } else if net.Updated? {
          PreservedTwice(net.data, e.data, docs[k].data);
        }
      }
    }
  }

  // ----- runs --------------------------------------------------------------------------------------------

  /** The database with its open handles, and the history the theorems speak about. */
  datatype World = World(db: Db, handles: map<nat, Handle>, traces: map<nat, Trace>, hist: Versions, owner: map<Key, nat>)

  datatype Step =
    | DirectInsert(col: string, data: Data, expiresAt: int)
    | DirectUpdate(k: Key, data: Data, expiresAt: int)
    | DirectRemove(k: Key)
    | Tick(now: int)
    | Begin(h: nat, parts: set<string>)
    | StageOp(h: nat, r: Request, late: bool)
    | GetDoc(h: nat, k: Key, late: bool)
    | StartCommit(h: nat)
    | FinishCommit(h: nat, verdict: Answer, ttl: string -> int)
    | Abandon(h: nat, phase: Phase)

  predicate Running(h: Handle) {
    h.phase.Open? || h.phase.Deciding?
  }

  ghost predicate Installs(w: World, w': World, k: Key, row: Row) {
    w'.db == w.db.(rows := w.db.rows[k := row], next := w'.db.next) && w'.hist == w.hist[(k, row.rev) := row]
  }

  ghost predicate SameHandles(w: World, w': World) {
    w'.handles == w.handles && w'.traces == w.traces && w'.owner == w.owner
  }

  function StageEvents(t: Trace, r: Request, result: Result<nat>): Trace {
    if result.Ok? then t + [Did(Key(r.col, result.value), r.op, r.data, r.expiresAt)] else t
  }

  function GetEvents(t: Trace, k: Key, own: bool, result: Result<(nat, Data)>): Trace {
    match result
    case Ok((rev, d)) => t + [Read(k, rev, Some(d), own)]
    case Err(f) => if f.NotFound? then t + [Read(k, 0, None, own)] else t
  }

  ghost predicate Stages(w: World, w': World, h: nat, r: Request, late: bool) {
    h in w.handles && h in w.traces &&
    var out := Stage(w.handles[h], w.db, r, late);
    && w'.db == w.db.(next := out.next) && w'.hist == w.hist
    && w'.handles == w.handles[h := out.h]
    && w'.traces == w.traces[h := StageEvents(w.traces[h], r, out.result)]
    && w'.owner == if out.result.Ok? && r.op.Insert? then w.owner[Key(r.col, out.result.value) := h] else w.owner
  }

  ghost predicate Gets(w: World, w': World, h: nat, k: Key, late: bool) {
    h in w.handles && h in w.traces &&
    var out := Get(w.handles[h], w.db, k, late);
    && w'.db == w.db && w'.hist == w.hist && w'.owner == w.owner
    && w'.handles == w.handles[h := out.h]
    && w'.traces == w.traces[h := GetEvents(w.traces[h], k, k in w.handles[h].writes, out.result)]
  }

  /** A run records every answer a caller got: what a read returned, or that it found nothing, and each staged operation. */
  lemma AnswersRecorded(w: World, w': World, h: nat, k: Key, r: Request, late: bool)
    requires h in w.handles && h in w.traces
    ensures Gets(w, w', h, k, late) ==>
      var answer := Get(w.handles[h], w.db, k, late).result;
      && (answer.Ok? ==> w'.traces[h] == w.traces[h] + [Read(k, answer.value.0, Some(answer.value.1), k in w.handles[h].writes)])
      && (answer == Err(NotFound) ==> w'.traces[h] == w.traces[h] + [Read(k, 0, None, k in w.handles[h].writes)])
    ensures Stages(w, w', h, r, late) ==>
      var answer := Stage(w.handles[h], w.db, r, late).result;
      answer.Ok? ==> w'.traces[h] == w.traces[h] + [Did(Key(r.col, answer.value), r.op, r.data, r.expiresAt)]
  {
  }

  /** The writes go in, atomically, or nothing does. */
  ghost predicate Commits(w: World, w': World, h: nat, ttl: string -> int) {
    && h in w.handles && w.handles[h].phase.Deciding?
    && ReadsHold(w.handles[h].observed, w.db)
    && (forall k :: k in w.handles[h].writes ==> TargetOk(w.db, k, w.handles[h].writes[k]))
    && w'.db == w.db.(rows := w'.db.rows)
    && AppliesAll(w.db.rows, w.handles[h].writes, ttl, w'.db.rows)
    && w'.handles == w.handles[h := Finish(w.handles[h], Done)]
    && w'.traces == w.traces && w'.owner == w.owner
    && Records(w.hist, w.handles[h].writes, w'.db.rows, w'.hist)
  }

  /** The versions a commit adds to the history. */
  ghost predicate Records(hist: Versions, writes: map<Key, Write>, rows: map<Key, Row>, hist': Versions) {
    && (forall v :: v in hist && !(v.0 in writes && v.0 in rows && rows[v.0].rev == v.1) ==> v in hist' && hist'[v] == hist[v])
    && (forall k :: k in writes && k in rows ==> (k, rows[k].rev) in hist' && hist'[(k, rows[k].rev)] == rows[k])
    && (forall v :: v in hist' ==> v in hist || (v.0 in writes && v.0 in rows && rows[v.0].rev == v.1))
  }

  ghost predicate Ends(w: World, w': World, h: nat, phase: Phase) {
    && h in w.handles && w'.db == w.db && w'.hist == w.hist && w'.traces == w.traces && w'.owner == w.owner
    && w'.handles == w.handles[h := if phase.Open? then w.handles[h].(phase := Open) else Finish(w.handles[h], phase)]
  }

  ghost predicate Next(w: World, w': World, step: Step) {
    match step
    case DirectInsert(col, data, exp) =>
      && col in w.db.next && SameHandles(w, w')
      && w'.db.next == w.db.next[col := w.db.next[col] + 1]
      && Installs(w, w', Key(col, w.db.next[col] + 1), Row(1, data, exp, 0))
    case DirectUpdate(k, data, exp) =>
      && LiveAt(w.db, k).Some? && SameHandles(w, w') && w'.db.next == w.db.next
      && Installs(w, w', k, Row(w.db.rows[k].rev + 1, data, exp, 0))
    case DirectRemove(k) =>
      SameHandles(w, w') && w'.hist == w.hist && w'.db == w.db.(rows := w.db.rows - {k})
    case Tick(now) =>
      now >= w.db.now && SameHandles(w, w') && w'.hist == w.hist && w'.db == w.db.(now := now)
    case Begin(h, parts) =>
      && h !in w.handles && w'.db == w.db && w'.hist == w.hist && w'.owner == w.owner
      && w'.handles == w.handles[h := Handle(parts, Open, map[], [], map[])] && w'.traces == w.traces[h := []]
    case StageOp(h, r, late) => Stages(w, w', h, r, late)
    case GetDoc(h, k, late) => Gets(w, w', h, k, late)
    case StartCommit(h) =>
      && h in w.handles && w.handles[h].phase.Open?
      && w' == w.(handles := w.handles[h := w.handles[h].(phase := Deciding)])
    case FinishCommit(h, verdict, ttl) =>
      h in w.handles && w.handles[h].phase.Deciding? &&
      (match verdict
       case Proceed => Commits(w, w', h, ttl) || (!Committable(w, h) && Ends(w, w', h, Failed))
       case Refuse => Ends(w, w', h, Failed)
       case Cancel => Ends(w, w', h, Open)
       case Doubt => Ends(w, w', h, InDoubt)
       case Replay => Ends(w, w', h, Done))
    case Abandon(h, phase) =>
      h in w.handles && w.handles[h].phase.Open? && phase in {RolledBack, TimedOut, Closed} && Ends(w, w', h, phase)
  }

  ghost predicate Committable(w: World, h: nat)
    requires h in w.handles
  {
    && ReadsHold(w.handles[h].observed, w.db)
    && (forall k :: k in w.handles[h].writes ==> TargetOk(w.db, k, w.handles[h].writes[k]))
  }

  // ----- the invariant -----------------------------------------------------------------------------------

  /** Versions identify rows: the stored row is the newest version of its document. */
  ghost predicate HistOk(db: Db, hist: Versions) {
    && (forall k :: k in db.rows ==> (k, db.rows[k].rev) in hist && hist[(k, db.rows[k].rev)] == db.rows[k])
    && (forall v :: v in hist && v.0 in db.rows ==> v.1 <= db.rows[v.0].rev)
    && (forall v :: v in hist ==> v.0.col in db.next && v.0.id <= db.next[v.0.col])
    && (forall v :: v in hist ==> v.1 > 0)
  }

  /** A reserved id stays unused until its owner commits. */
  ghost predicate OwnersOk(w: World) {
    && (forall k :: k in w.owner ==> k.col in w.db.next && k.id <= w.db.next[k.col])
    && (forall v :: v in w.hist && v.0 in w.owner ==>
          w.owner[v.0] in w.handles && !Running(w.handles[w.owner[v.0]]))
  }

  function Owned(owner: map<Key, nat>, h: nat): set<Key> {
    set k | k in owner && owner[k] == h
  }

  ghost predicate ObsOk(observed: map<Key, Obs>, hist: Versions) {
    forall k :: k in observed ==> if observed[k].present then (k, observed[k].rev) in hist else observed[k].rev == 0
  }

  ghost predicate HandleOk(h: Handle, t: Trace, hist: Versions, owned: set<Key>) {
    && EventsOk(t, h.observed, hist, owned)
    && WritesFit(t, h.writes, h.observed)
    && ObsOk(h.observed, hist)
  }

  ghost predicate HandlesOk(w: World) {
    && w.traces.Keys == w.handles.Keys
    && (forall h :: h in w.handles && Running(w.handles[h]) ==>
          HandleOk(w.handles[h], w.traces[h], w.hist, Owned(w.owner, h)))
  }

  ghost predicate Inv(w: World) {
    HistOk(w.db, w.hist) && OwnersOk(w) && HandlesOk(w) && (forall k :: k in w.owner ==> w.owner[k] in w.handles)
  }

  ghost predicate Init(w: World) {
    w.handles == map[] && w.traces == map[] && w.owner == map[] && HistOk(w.db, w.hist)
  }

  // ----- a commit is a serial execution ----------------------------------------------------------------

  /** The documents a reader sees. */
  function LiveDocs(db: Db): Docs {
    map k | k in db.rows && !Expired(db.rows[k].expiresAt, db.now) :: Doc(db.rows[k].data, db.rows[k].expiresAt)
  }

  /** An update with a deadline followed by one without falls back to the stored deadline. */
  predicate DeadlineLost(n: Net, row: Option<Row>) {
    n.Updated? && n.last == 0 && n.kept != 0 && row.Some? && n.kept != row.value.expiresAt
  }

  /** What a commit leaves of one document, against the serial execution. */
  ghost predicate LeavesAsSerial(row: Option<Row>, row': Option<Row>, stale: bool, final: Option<Doc>, n: Net) {
    if stale then final.None? && row' == row
    else
      && (row'.Some? <==> final.Some?)
      && (row'.Some? ==>
            && row'.value.data == final.value.data
            && (row'.value.expiresAt == final.value.expiresAt <==> !DeadlineLost(n, row))
            && row'.value.rev == if n.Inserted? then 1 else if n.Updated? then RevOf(row) + 1 else RevOf(row))
  }

  /** A read that found a document was given its stored revision, zero for one the handle inserts itself. */
  ghost predicate RevisionsHold(db: Db, t: Trace) {
    forall i :: 0 <= i < |t| && t[i].Read? && t[i].res.Some? ==> t[i].rev == RevOf(LiveAt(db, t[i].k))
  }

  ghost predicate SerialCommit(w: World, w': World, h: nat, ttl: string -> int) {
    h in w.traces &&
    var docs, t := LiveDocs(w.db), w.traces[h];
    && Serial(docs, t, ttl) && RevisionsHold(w.db, t)
    && forall k ::
         LeavesAsSerial(RowAt(w.db.rows, k), RowAt(w'.db.rows, k), k in w.db.rows && k !in docs,
                        DocAt(SerialRun(docs, t, ttl), k), NetOf(t, k))
  }

  lemma CommitBase(w: World, h: nat)
    requires Inv(w) && h in w.handles && Running(w.handles[h]) && ReadsHold(w.handles[h].observed, w.db)
    ensures BaseOk(LiveDocs(w.db), w.handles[h].observed, Owned(w.owner, h))
    ensures forall k :: k in Owned(w.owner, h) ==> k !in w.db.rows
  {
    forall k | k in Owned(w.owner, h)
      ensures k !in w.db.rows
    {
      assert forall v :: v in w.hist ==> v.0 != k;
    }
    forall k | k in w.handles[h].observed
      ensures w.handles[h].observed[k].present <==> k in LiveDocs(w.db)
    {
      assert LiveAt(w.db, k).Some? <==> k in LiveDocs(w.db);
    }
  }

  /** An observed version that still is the current one is the current row. */
  lemma SameVersionSameRow(w: World, k: Key, o: Obs)
    requires HistOk(w.db, w.hist) && o.present == LiveAt(w.db, k).Some? && o.rev == RevOf(LiveAt(w.db, k)) && o.present
    ensures (k, o.rev) in w.hist && w.hist[(k, o.rev)] == w.db.rows[k] && k in LiveDocs(w.db)
  {
  }

  lemma EventAnswered(w: World, h: nat, i: nat, ttl: string -> int)
    requires Inv(w) && h in w.handles && Running(w.handles[h]) && ReadsHold(w.handles[h].observed, w.db)
    requires h in w.traces && i < |w.traces[h]|
    ensures Answered(SerialRun(LiveDocs(w.db), w.traces[h][..i], ttl), w.traces[h][i])
  {
    var hd, t, docs, owned := w.handles[h], w.traces[h], LiveDocs(w.db), Owned(w.owner, h);
    var e := t[i];
    assert HandleOk(hd, t, w.hist, owned);
    EventsPrefix(t, i, hd.observed, w.hist, owned);
    CommitBase(w, h);
    SerialIsNet(docs, t[..i], e.k, ttl, hd.observed, w.hist, owned);
    NetShape(t[..i], e.k, hd.observed, w.hist, owned);
    assert EventOk(NetOf(t[..i], e.k), e, hd.observed, w.hist, owned);
    if e.Read? && !e.own && e.res.Some? {
      SameVersionSameRow(w, e.k, hd.observed[e.k]);
    }
  }

  lemma {:induction false} EventsPrefix(t: Trace, i: nat, observed: map<Key, Obs>, hist: Versions, owned: set<Key>)
    requires EventsOk(t, observed, hist, owned) && i <= |t|
    ensures EventsOk(t[..i], observed, hist, owned)
  {
    forall j | 0 <= j < i
      ensures EventOk(NetOf(t[..i][..j], t[..i][j].k), t[..i][j], observed, hist, owned)
    {
      assert t[..i][..j] == t[..j];
    }
  }

  lemma DocumentAsSerial(w: World, w': World, h: nat, ttl: string -> int, k: Key)
    requires Inv(w) && h in w.traces && Commits(w, w', h, ttl)
    ensures
      var docs, t := LiveDocs(w.db), w.traces[h];
      LeavesAsSerial(RowAt(w.db.rows, k), RowAt(w'.db.rows, k), k in w.db.rows && k !in docs,
                     DocAt(SerialRun(docs, t, ttl), k), NetOf(t, k))
  {
    var hd, t, docs, owned := w.handles[h], w.traces[h], LiveDocs(w.db), Owned(w.owner, h);
    assert HandleOk(hd, t, w.hist, owned);
    CommitBase(w, h);
    SerialIsNet(docs, t, k, ttl, hd.observed, w.hist, owned);
    NetShape(t, k, hd.observed, w.hist, owned);
    assert WriteFits(NetOf(t, k), k, hd.writes, hd.observed);
    assert DocAt(docs, k) == LiveDoc(RowAt(w.db.rows, k), k in docs);
    hide HandleOk, BaseOk, HistOk, OwnersOk, HandlesOk, SerialRun, NetOf, WriteFits, LeavesAsSerial, NetDoc, ReadsHold;
    NetWritten(NetOf(t, k), k, hd.writes, hd.observed, RowAt(w.db.rows, k), k in docs, RowAt(w'.db.rows, k), ttl);
  }

  function LiveDoc(row: Option<Row>, live: bool): Option<Doc> {
    if live && row.Some? then Some(Doc(row.value.data, row.value.expiresAt)) else None
  }

  /** The folded write does to a row what the staged operations do to its document, but for a lost deadline. */
  lemma NetWritten(n: Net, k: Key, writes: map<Key, Write>, observed: map<Key, Obs>, row: Option<Row>, live: bool, row': Option<Row>,
                   ttl: string -> int)
    requires WriteFits(n, k, writes, observed)
    requires if k in writes then Leaves(row, k, writes[k], ttl, row') else row' == row
    requires (n.Inserted? || n.Gone? ==> row.None?) && (n.Updated? || n.Removed? ==> row.Some? && live)
    requires n.Updated? && n.last != 0 ==> n.kept == n.last
    ensures LeavesAsSerial(row, row', row.Some? && !live, NetDoc(n, LiveDoc(row, live), k, ttl), n)
  {
    if k in writes {
      LeavesWritten(row, k, writes[k], ttl);
    }
  }

  lemma RevisionsRead(w: World, h: nat)
    requires Inv(w) && h in w.handles && Running(w.handles[h]) && ReadsHold(w.handles[h].observed, w.db) && h in w.traces
    ensures RevisionsHold(w.db, w.traces[h])
  {
    var hd, t, owned := w.handles[h], w.traces[h], Owned(w.owner, h);
    assert HandleOk(hd, t, w.hist, owned);
    CommitBase(w, h);
    forall i | 0 <= i < |t| && t[i].Read? && t[i].res.Some?
      ensures t[i].rev == RevOf(LiveAt(w.db, t[i].k))
    {
      EventsPrefix(t, i, hd.observed, w.hist, owned);
      NetShape(t[..i], t[i].k, hd.observed, w.hist, owned);
      assert EventOk(NetOf(t[..i], t[i].k), t[i], hd.observed, w.hist, owned);
    }
  }

  /**
   A committed handle behaves as if it had run alone at its commit: every read it was answered
   and every write it staged fit the documents just before, and what it leaves is what running
   its operations in order leaves, except for a deadline that folding lost.
   */
  lemma CommitSerializes(w: World, w': World, h: nat, ttl: string -> int)
    requires Inv(w) && h in w.traces && Commits(w, w', h, ttl)
    ensures SerialCommit(w, w', h, ttl)
  {
    var docs, t := LiveDocs(w.db), w.traces[h];
    forall i | 0 <= i < |t|
      ensures Answered(SerialRun(docs, t[..i], ttl), t[i])
    {
      EventAnswered(w, h, i, ttl);
    }
    RevisionsRead(w, h);
    forall k
      ensures LeavesAsSerial(RowAt(w.db.rows, k), RowAt(w'.db.rows, k), k in w.db.rows && k !in docs,
                             DocAt(SerialRun(docs, t, ttl), k), NetOf(t, k))
    {
      DocumentAsSerial(w, w', h, ttl, k);
    }
  }

  // ----- steps keep the invariant ----------------------------------------------------------------------

  /** History only grows. */
  ghost predicate Grows(hist: Versions, hist': Versions) {
    forall v :: v in hist ==> v in hist' && hist'[v] == hist[v]
  }

  ghost predicate ObsGrows(observed: map<Key, Obs>, observed': map<Key, Obs>) {
    forall k :: k in observed ==>
      k in observed' && observed'[k].present == observed[k].present && observed'[k].rev == observed[k].rev
  }

  lemma EventsGrow(t: Trace, observed: map<Key, Obs>, observed': map<Key, Obs>, hist: Versions, hist': Versions,
                   owned: set<Key>, owned': set<Key>)
    requires EventsOk(t, observed, hist, owned) && ObsGrows(observed, observed') && Grows(hist, hist') && owned <= owned'
    ensures EventsOk(t, observed', hist', owned')
  {
    forall i | 0 <= i < |t|
      ensures EventOk(NetOf(t[..i], t[i].k), t[i], observed', hist', owned')
    {
      assert EventOk(NetOf(t[..i], t[i].k), t[i], observed, hist, owned);
    }
  }

  lemma EventsAppend(t: Trace, e: Event, observed: map<Key, Obs>, hist: Versions, owned: set<Key>)
    requires EventsOk(t, observed, hist, owned) && EventOk(NetOf(t, e.k), e, observed, hist, owned)
    ensures EventsOk(t + [e], observed, hist, owned)
    ensures forall k :: NetOf(t + [e], k) == NetStep(NetOf(t, k), e, k)
  {
    var u := t + [e];
    assert u[..|t|] == t;
    forall i | 0 <= i < |u|
      ensures EventOk(NetOf(u[..i], u[i].k), u[i], observed, hist, owned)
    {
      if i < |t| {
        assert u[..i] == t[..i];
      }
    }
  }

  lemma HandleGrows(h: Handle, t: Trace, hist: Versions, hist': Versions, owned: set<Key>, owned': set<Key>)
    requires HandleOk(h, t, hist, owned) && Grows(hist, hist') && owned <= owned'
    ensures HandleOk(h, t, hist', owned')
  {
    EventsGrow(t, h.observed, h.observed, hist, hist', owned, owned');
  }

  /** What the handle touched is known to the database: a fresh id is untouched. */
  lemma FreshIsUntouched(w: World, h: nat, k: Key)
    requires Inv(w) && h in w.handles && Running(w.handles[h]) && k.col in w.db.next && k.id > w.db.next[k.col]
    ensures NetOf(w.traces[h], k).Untouched?
    ensures forall v :: v in w.hist ==> v.0 != k
  {
    var hd := w.handles[h];
    assert HandleOk(hd, w.traces[h], w.hist, Owned(w.owner, h));
    NetShape(w.traces[h], k, hd.observed, w.hist, Owned(w.owner, h));
    ObservedIsKnown(w.db, w.hist, hd.observed);
  }

  lemma ObservedIsKnown(db: Db, hist: Versions, observed: map<Key, Obs>)
    requires HistOk(db, hist) && ObsOk(observed, hist)
    ensures forall k :: k in observed && observed[k].present ==> k.col in db.next && k.id <= db.next[k.col]
  {
    forall k | k in observed && observed[k].present
      ensures k.col in db.next && k.id <= db.next[k.col]
    {
      assert (k, observed[k].rev) in hist;
    }
  }

  lemma ObserveKeeps(w: World, h: nat, k: Key)
    requires Inv(w) && h in w.handles && Running(w.handles[h])
    ensures
      var hd := Observe(w.handles[h], w.db, k);
      HandleOk(hd, w.traces[h], w.hist, Owned(w.owner, h)) && ObsGrows(w.handles[h].observed, hd.observed) && k in hd.observed
  {
    var hd := w.handles[h];
    var hd' := Observe(hd, w.db, k);
    assert HandleOk(hd, w.traces[h], w.hist, Owned(w.owner, h));
    EventsGrow(w.traces[h], hd.observed, hd'.observed, w.hist, w.hist, Owned(w.owner, h), Owned(w.owner, h));
    forall x
      ensures WriteFits(NetOf(w.traces[h], x), x, hd'.writes, hd'.observed)
    {
      assert WriteFits(NetOf(w.traces[h], x), x, hd.writes, hd.observed);
    }
  }

  lemma FitsStill(n: Net, k: Key, writes: map<Key, Write>, writes': map<Key, Write>, observed: map<Key, Obs>, observed': map<Key, Obs>)
    requires WriteFits(n, k, writes, observed) && ObsGrows(observed, observed')
    requires (k in writes' <==> k in writes) && (k in writes ==> writes'[k] == writes[k])
    ensures WriteFits(n, k, writes', observed')
  {
  }

  /** One accepted event together with the write it leaves. */
  lemma DidKeeps(hd: Handle, hd': Handle, t: Trace, e: Event, hist: Versions, owned: set<Key>, owned': set<Key>)
    requires HandleOk(hd, t, hist, owned) && e.Did? && owned <= owned' && ObsGrows(hd.observed, hd'.observed)
    requires DidOk(NetOf(t, e.k), e, hd'.observed, owned') && ObsOk(hd'.observed, hist)
    requires forall k :: k != e.k ==> (k in hd'.writes <==> k in hd.writes) && (k in hd.writes ==> hd'.writes[k] == hd.writes[k])
    requires WriteFits(NetStep(NetOf(t, e.k), e, e.k), e.k, hd'.writes, hd'.observed)
    ensures HandleOk(hd', t + [e], hist, owned')
  {
    assert EventOk(NetOf(t, e.k), e, hd'.observed, hist, owned');
    EventsGrow(t, hd.observed, hd'.observed, hist, hist, owned, owned');
    EventsAppend(t, e, hd'.observed, hist, owned');
    hide WriteFits, EventsOk, EventOk, DidOk, ObsGrows, NetOf, ObsOk;
    forall k
      ensures WriteFits(NetOf(t + [e], k), k, hd'.writes, hd'.observed)
    {
      assert WriteFits(NetOf(t, k), k, hd.writes, hd.observed);
      if k != e.k {
        FitsStill(NetOf(t, k), k, hd.writes, hd'.writes, hd.observed, hd'.observed);
      }
    }
  }

  lemma ReadKeeps(hd: Handle, t: Trace, e: Event, hist: Versions, owned: set<Key>)
    requires HandleOk(hd, t, hist, owned) && e.Read? && ReadOk(NetOf(t, e.k), e, hd.observed, hist)
    ensures HandleOk(hd, t + [e], hist, owned)
  {
    EventsAppend(t, e, hd.observed, hist, owned);
    forall k
      ensures WriteFits(NetOf(t + [e], k), k, hd.writes, hd.observed)
    {
      assert WriteFits(NetOf(t, k), k, hd.writes, hd.observed);
    }
  }

  /** The handle after one of its own operations. */
  ghost predicate OwnStepOk(w: World, w': World, h: nat) {
    && h in w'.handles && h in w'.traces
    && (Running(w'.handles[h]) ==> HandleOk(w'.handles[h], w'.traces[h], w'.hist, Owned(w'.owner, h)))
  }

  lemma HandleIsOk(w: World, h: nat)
    requires Inv(w) && h in w.handles && Running(w.handles[h])
    ensures h in w.traces && HandleOk(w.handles[h], w.traces[h], w.hist, Owned(w.owner, h))
  {
    hide HistOk, OwnersOk, HandleOk, Owned;
  }

  lemma InsertDid(hd: Handle, t: Trace, k: Key, data: Data, expiresAt: int, hist: Versions, owned: set<Key>)
    requires HandleOk(hd, t, hist, owned) && NetOf(t, k).Untouched? && KEY_FIELD !in data
    ensures HandleOk(hd.(writes := hd.writes[k := Write(Insert, data, 0, expiresAt)], order := hd.order + [k]),
                     t + [Did(k, Insert, data, expiresAt)], hist, owned + {k})
  {
    hide EventsOk, NetOf, WritesFit, ObsOk;
    DidKeeps(hd, hd.(writes := hd.writes[k := Write(Insert, data, 0, expiresAt)], order := hd.order + [k]),
             t, Did(k, Insert, data, expiresAt), hist, owned, owned + {k});
  }

  lemma InsertKeeps(w: World, h: nat, r: Request)
    requires Inv(w) && h in w.handles && Running(w.handles[h]) && r.col in w.db.next && r.op.Insert? && KEY_FIELD !in r.data
    ensures
      var out := StageInsert(w.handles[h], w.db, r);
      var owned := Owned(w.owner, h) + if out.result.Ok? then {Key(r.col, out.result.value)} else {};
      HandleOk(out.h, StageEvents(w.traces[h], r, out.result), w.hist, owned)
  {
    hide Inv, HandleOk, NetOf, Owned;
    HandleIsOk(w, h);
    var hd, t, owned := w.handles[h], w.traces[h], Owned(w.owner, h);
    if |hd.writes| < MAX_OPS {
      var k := Key(r.col, w.db.next[r.col] + 1);
      FreshIsUntouched(w, h, k);
      InsertDid(hd, t, k, r.data, r.expiresAt, w.hist, owned);
    } else {
      assert owned + {} == owned;
    }
  }

  lemma FoldDid(hd: Handle, db: Db, t: Trace, r: Request, hist: Versions, owned: set<Key>)
    requires HandleOk(hd, t, hist, owned) && !r.op.Insert? && Key(r.col, r.id) in hd.writes && (!r.op.Delete? ==> KEY_FIELD !in r.data)
    ensures
      var out := StageFold(hd, db, r);
      HandleOk(out.h, StageEvents(t, r, out.result), hist, owned)
  {
    var k := Key(r.col, r.id);
    assert WriteFits(NetOf(t, k), k, hd.writes, hd.observed);
    hide EventsOk, NetOf, ObsOk, WritesFit;
    var out := StageFold(hd, db, r);
    if out.result.Ok? {
      DidKeeps(hd, out.h, t, Did(k, r.op, r.data, r.expiresAt), hist, owned, owned);
    }
  }

  lemma FoldKeeps(w: World, h: nat, r: Request)
    requires Inv(w) && h in w.handles && Running(w.handles[h]) && !r.op.Insert? && Key(r.col, r.id) in w.handles[h].writes
    requires !r.op.Delete? ==> KEY_FIELD !in r.data
    ensures
      var out := StageFold(w.handles[h], w.db, r);
      HandleOk(out.h, StageEvents(w.traces[h], r, out.result), w.hist, Owned(w.owner, h))
  {
    hide Inv, HandleOk, Owned, StageFold, StageEvents;
    HandleIsOk(w, h);
    FoldDid(w.handles[h], w.db, w.traces[h], r, w.hist, Owned(w.owner, h));
  }

  lemma FirstKeeps(w: World, h: nat, r: Request)
    requires Inv(w) && h in w.handles && Running(w.handles[h]) && !r.op.Insert? && Key(r.col, r.id) !in w.handles[h].writes
    requires !r.op.Delete? ==> KEY_FIELD !in r.data
    ensures
      var out := StageFirst(w.handles[h], w.db, r);
      HandleOk(out.h, StageEvents(w.traces[h], r, out.result), w.hist, Owned(w.owner, h))
  {
    var hd, t, k, owned := w.handles[h], w.traces[h], Key(r.col, r.id), Owned(w.owner, h);
    hide HistOk, OwnersOk, HandlesOk, EventsOk, NetOf, ObsOk, Inv, WritesFit, ObsGrows;
    ObserveKeeps(w, h, k);
    var hd1 := Observe(hd, w.db, k);
    if hd1.observed[k].present {
      OwnedAbsent(w, h, k, hd1);
      FirstFits(hd1, t, k, w.hist, owned);
      FirstDid(hd1, t, r, k, w.hist, owned);
    }
  }

  /** A document seen present and not yet written is untouched. */
  lemma FirstFits(hd: Handle, t: Trace, k: Key, hist: Versions, owned: set<Key>)
    requires HandleOk(hd, t, hist, owned) && k !in hd.writes && k !in owned
    ensures NetOf(t, k).Untouched?
  {
    NetShape(t, k, hd.observed, hist, owned);
    assert WriteFits(NetOf(t, k), k, hd.writes, hd.observed);
  }

  lemma FirstDid(hd: Handle, t: Trace, r: Request, k: Key, hist: Versions, owned: set<Key>)
    requires HandleOk(hd, t, hist, owned) && NetOf(t, k).Untouched? && k == Key(r.col, r.id) && !r.op.Insert?
    requires k in hd.observed && hd.observed[k].present && (!r.op.Delete? ==> KEY_FIELD !in r.data)
    ensures
      var obs := hd.observed[k];
      HandleOk(hd.(writes := hd.writes[k := Write(r.op, if r.op.Delete? then map[] else r.data, obs.rev, r.expiresAt)],
                   order := hd.order + [k], observed := hd.observed[k := obs.(write := true)]),
               t + [Did(k, r.op, r.data, r.expiresAt)], hist, owned)
  {
    hide EventsOk, NetOf, WritesFit;
    var obs := hd.observed[k];
    ObsFlagged(hd.observed, k, hist);
    DidKeeps(hd, hd.(writes := hd.writes[k := Write(r.op, if r.op.Delete? then map[] else r.data, obs.rev, r.expiresAt)],
                     order := hd.order + [k], observed := hd.observed[k := obs.(write := true)]),
             t, Did(k, r.op, r.data, r.expiresAt), hist, owned, owned);
  }

  lemma ObsFlagged(observed: map<Key, Obs>, k: Key, hist: Versions)
    requires ObsOk(observed, hist) && k in observed
    ensures
      var o := observed[k := observed[k].(write := true)];
      ObsGrows(observed, o) && ObsOk(o, hist)
  {
  }

  /** A document the handle sees present is not one of its reserved ids. */
  lemma OwnedAbsent(w: World, h: nat, k: Key, hd: Handle)
    requires Inv(w) && h in w.handles && Running(w.handles[h])
    requires ObsOk(hd.observed, w.hist) && k in hd.observed && hd.observed[k].present
    ensures k !in Owned(w.owner, h)
  {
    assert (k, hd.observed[k].rev) in w.hist;
  }

  lemma StageKeeps(w: World, w': World, h: nat, r: Request, late: bool)
    requires Inv(w) && Stages(w, w', h, r, late)
    ensures OwnStepOk(w, w', h)
    ensures Running(w'.handles[h]) ==> Running(w.handles[h])
  {
    var hd := w.handles[h];
    var out := Stage(hd, w.db, r, late);
    if Running(hd) && Refused(hd, w.db, r).None? && Timed(hd, late).phase.Open? {
      if r.op.Insert? {
        InsertKeeps(w, h, r);
        var added := if out.result.Ok? then {Key(r.col, out.result.value)} else {};
        assert Owned(w'.owner, h) == Owned(w.owner, h) + added;
      } else if Key(r.col, r.id) in hd.writes {
        FoldKeeps(w, h, r);
      } else {
        FirstKeeps(w, h, r);
      }
    } else if Running(hd) {
      assert HandleOk(hd, w.traces[h], w.hist, Owned(w.owner, h));
    }
  }

  lemma GetKeeps(w: World, w': World, h: nat, k: Key, late: bool)
    requires Inv(w) && Gets(w, w', h, k, late)
    ensures OwnStepOk(w, w', h)
    ensures Running(w'.handles[h]) ==> Running(w.handles[h])
  {
    var hd, t, owned := w.handles[h], w.traces[h], Owned(w.owner, h);
    var out := Get(hd, w.db, k, late);
    if Running(hd) {
      assert HandleOk(hd, t, w.hist, owned);
      NetShape(t, k, hd.observed, w.hist, owned);
      assert WriteFits(NetOf(t, k), k, hd.writes, hd.observed);
      if w'.traces[h] != t {
        var e := w'.traces[h][|t|];
        if !e.own {
          ObserveKeeps(w, h, k);
        }
        ReadKeeps(out.h, t, e, w.hist, owned);
      }
    }
  }

  /** Everybody but `h` keeps handle and trace; history and ownership only grow. */
  ghost predicate OthersKeep(w: World, w': World, h: nat) {
    && w'.handles.Keys == w.handles.Keys + {h} && w'.traces.Keys == w'.handles.Keys
    && (forall x :: x in w.handles && x != h ==> w'.handles[x] == w.handles[x])
    && (forall x :: x in w.handles && x != h ==> x in w.traces && w'.traces[x] == w.traces[x])
    && Grows(w.hist, w'.hist)
    && (forall x :: x in w.handles && x != h ==> Owned(w.owner, x) <= Owned(w'.owner, x))
  }

  lemma HandlesKeep(w: World, w': World, h: nat)
    requires HandlesOk(w) && OthersKeep(w, w', h) && OwnStepOk(w, w', h)
    ensures HandlesOk(w')
  {
    forall x | x in w'.handles && Running(w'.handles[x])
      ensures HandleOk(w'.handles[x], w'.traces[x], w'.hist, Owned(w'.owner, x))
    {
      if x != h {
        HandleGrows(w.handles[x], w.traces[x], w.hist, w'.hist, Owned(w.owner, x), Owned(w'.owner, x));
      }
    }
  }

  lemma HandlesFramed(w: World, w': World)
    requires HandlesOk(w) && SameHandles(w, w') && Grows(w.hist, w'.hist)
    ensures HandlesOk(w')
  {
    forall x | x in w'.handles && Running(w'.handles[x])
      ensures HandleOk(w'.handles[x], w'.traces[x], w'.hist, Owned(w'.owner, x))
    {
      HandleGrows(w.handles[x], w.traces[x], w.hist, w'.hist, Owned(w.owner, x), Owned(w'.owner, x));
    }
  }

  lemma DirectKeeps(w: World, w': World, k: Key, row: Row)
    requires Inv(w) && SameHandles(w, w') && Installs(w, w', k, row) && row.rev > 0
    requires forall c :: c in w.db.next ==> c in w'.db.next && w.db.next[c] <= w'.db.next[c]
    requires k.col in w'.db.next && k.id <= w'.db.next[k.col]
    requires if k in w.db.rows then row.rev == w.db.rows[k].rev + 1 else k.col in w.db.next && k.id > w.db.next[k.col]
    ensures Inv(w')
  {
    assert Grows(w.hist, w'.hist);
    HandlesFramed(w, w');
    if k in w.db.rows {
      assert (k, w.db.rows[k].rev) in w.hist;
    }
  }

  lemma DbKeeps(w: World, w': World)
    requires Inv(w) && SameHandles(w, w') && w'.hist == w.hist && w'.db.next == w.db.next
    requires forall k :: k in w'.db.rows ==> k in w.db.rows && w'.db.rows[k] == w.db.rows[k]
    ensures Inv(w')
  {
    HandlesFramed(w, w');
  }

  /** Handle steps that leave the stored rows alone. */
  lemma HandleStepKeeps(w: World, w': World, h: nat)
    requires Inv(w) && OthersKeep(w, w', h) && OwnStepOk(w, w', h) && w'.hist == w.hist && w'.db.rows == w.db.rows
    requires forall c :: c in w.db.next ==> c in w'.db.next && w.db.next[c] <= w'.db.next[c]
    requires h in w.handles && Running(w'.handles[h]) ==> Running(w.handles[h])
    requires forall k :: k in w'.owner ==>
      (k in w.owner && w'.owner[k] == w.owner[k])
      || (w'.owner[k] == h && k.col in w.db.next && k.id > w.db.next[k.col] && k.col in w'.db.next && k.id <= w'.db.next[k.col])
    ensures Inv(w')
  {
    hide HandlesOk, OwnStepOk, Grows, Owned;
    HandlesKeep(w, w', h);
  }

  // ----- the commit step ---------------------------------------------------------------------------------

  /** A write's new version was never there before. */
  lemma NewVersion(w: World, w': World, h: nat, ttl: string -> int, k: Key)
    requires Inv(w) && h in w.traces && Commits(w, w', h, ttl) && k in w.handles[h].writes && k in w'.db.rows
    ensures w'.db.rows[k].rev > 0 && k.col in w.db.next && k.id <= w.db.next[k.col]
    ensures forall v :: v in w.hist && v.0 == k ==> v.1 < w'.db.rows[k].rev
    ensures k in w.owner ==> w.owner[k] == h || !Running(w.handles[w.owner[k]])
  {
    var hd, t, owned := w.handles[h], w.traces[h], Owned(w.owner, h);
    assert HandleOk(hd, t, w.hist, owned);
    NetShape(t, k, hd.observed, w.hist, owned);
    assert WriteFits(NetOf(t, k), k, hd.writes, hd.observed);
    assert Leaves(RowAt(w.db.rows, k), k, hd.writes[k], ttl, RowAt(w'.db.rows, k));
    hide HandleOk, HandlesOk, WriteFits, NetOf;
    if hd.writes[k].op.Insert? {
      assert k in owned;
      assert forall v :: v in w.hist ==> v.0 != k;
    } else {
      assert (k, w.db.rows[k].rev) in w.hist;
    }
  }

  lemma CommitHist(w: World, w': World, h: nat, ttl: string -> int)
    requires Inv(w) && h in w.traces && Commits(w, w', h, ttl)
    ensures Grows(w.hist, w'.hist) && HistOk(w'.db, w'.hist) && OwnersOk(w')
  {
    var writes := w.handles[h].writes;
    forall k | k in writes && k in w'.db.rows
      ensures w'.db.rows[k].rev > 0 && k.col in w.db.next && k.id <= w.db.next[k.col]
      ensures forall v :: v in w.hist && v.0 == k ==> v.1 < w'.db.rows[k].rev
      ensures k in w.owner ==> w.owner[k] == h || !Running(w.handles[w.owner[k]])
    {
      NewVersion(w, w', h, ttl, k);
    }
    forall k | k !in writes
      ensures RowAt(w'.db.rows, k) == RowAt(w.db.rows, k)
    {
    }
    hide HandlesOk, ReadsHold, TargetOk, AppliesAll;
    CommitHistOk(w.db, w'.db, w.hist, w'.hist, writes);
    CommitOwners(w, w', h);
  }

  lemma CommitHistOk(db: Db, db': Db, hist: Versions, hist': Versions, writes: map<Key, Write>)
    requires HistOk(db, hist) && Records(hist, writes, db'.rows, hist') && db' == db.(rows := db'.rows)
    requires forall k :: k in writes && k in db'.rows ==>
      db'.rows[k].rev > 0 && k.col in db.next && k.id <= db.next[k.col]
    requires forall k, v :: k in writes && k in db'.rows && v in hist && v.0 == k ==> v.1 < db'.rows[k].rev
    requires forall k :: k !in writes ==> RowAt(db'.rows, k) == RowAt(db.rows, k)
    ensures Grows(hist, hist') && HistOk(db', hist')
  {
    forall k | k in db'.rows
      ensures (k, db'.rows[k].rev) in hist' && hist'[(k, db'.rows[k].rev)] == db'.rows[k]
    {
      if k !in writes {
        assert RowAt(db'.rows, k) == RowAt(db.rows, k);
        assert (k, db.rows[k].rev) in hist;
      }
    }
    forall v | v in hist' && v.0 in db'.rows
      ensures v.1 <= db'.rows[v.0].rev
    {
      if v.0 !in writes {
        assert RowAt(db'.rows, v.0) == RowAt(db.rows, v.0);
      }
    }
  }

  lemma CommitOwners(w: World, w': World, h: nat)
    requires OwnersOk(w) && h in w.handles && w'.owner == w.owner && w'.handles == w.handles[h := Finish(w.handles[h], Done)]
    requires w'.db.next == w.db.next && Records(w.hist, w.handles[h].writes, w'.db.rows, w'.hist)
    requires forall k :: k in w.owner ==> w.owner[k] in w.handles
    requires forall k :: k in w.handles[h].writes && k in w'.db.rows && k in w.owner ==>
      w.owner[k] == h || !Running(w.handles[w.owner[k]])
    ensures OwnersOk(w')
  {
  }

  lemma CommitKeeps(w: World, w': World, h: nat, ttl: string -> int)
    requires Inv(w) && Commits(w, w', h, ttl)
    ensures Inv(w')
  {
    CommitHist(w, w', h, ttl);
    assert OthersKeep(w, w', h) && OwnStepOk(w, w', h);
    HandlesKeep(w, w', h);
  }

  // ----- whole runs --------------------------------------------------------------------------------------

  lemma SettledKeeps(w: World, w': World, h: nat, phase: Phase)
    requires Inv(w) && h in w.handles && Running(w.handles[h]) && Ends(w, w', h, phase) && !phase.Deciding?
    ensures Inv(w')
  {
    assert HandleOk(w.handles[h], w.traces[h], w.hist, Owned(w.owner, h));
    assert phase.Open? ==> HandleOk(w'.handles[h], w'.traces[h], w'.hist, Owned(w'.owner, h));
    HandleStepKeeps(w, w', h);
  }

  lemma BeginKeeps(w: World, w': World, h: nat, parts: set<string>)
    requires Inv(w) && Next(w, w', Begin(h, parts))
    ensures Inv(w')
  {
    assert HandleOk(w'.handles[h], [], w'.hist, Owned(w'.owner, h));
    HandleStepKeeps(w, w', h);
  }

  lemma StageStepKeeps(w: World, w': World, h: nat, r: Request, late: bool)
    requires Inv(w) && Stages(w, w', h, r, late)
    ensures Inv(w')
  {
    StageKeeps(w, w', h, r, late);
    hide OwnStepOk, HandlesOk, HistOk, OwnersOk, OthersKeep;
    StageOwns(w, w', h, r, late);
    StageOthers(w, w', h, r, late);
    HandleStepKeeps(w, w', h);
  }

  lemma StageOwns(w: World, w': World, h: nat, r: Request, late: bool)
    requires Inv(w) && Stages(w, w', h, r, late)
    ensures forall c :: c in w.db.next ==> c in w'.db.next && w.db.next[c] <= w'.db.next[c]
    ensures forall k :: k in w.owner ==> k in w'.owner && w'.owner[k] == w.owner[k]
    ensures forall k :: k in w'.owner ==>
      (k in w.owner && w'.owner[k] == w.owner[k])
      || (w'.owner[k] == h && k.col in w.db.next && k.id > w.db.next[k.col] && k.col in w'.db.next && k.id <= w'.db.next[k.col])
  {
    StageReserves(w.handles[h], w.db, r, late);
    hide Stage, HandlesOk, HistOk;
    forall k | k in w.owner
      ensures w'.owner[k] == w.owner[k]
    {
      assert k.id <= w.db.next[k.col];
    }
  }

  lemma StageOthers(w: World, w': World, h: nat, r: Request, late: bool)
    requires HandlesOk(w) && Stages(w, w', h, r, late)
    requires forall k :: k in w.owner ==> k in w'.owner && w'.owner[k] == w.owner[k]
    ensures OthersKeep(w, w', h)
  {
    hide Stage, HandleOk;
  }

  /** Only an accepted insert moves an id counter, by one, to the id it hands out. */
  lemma StageReserves(h: Handle, db: Db, r: Request, late: bool)
    ensures
      var out := Stage(h, db, r, late);
      if out.result.Ok? && r.op.Insert?
      then r.col in db.next && out.result.value == db.next[r.col] + 1 && out.next == db.next[r.col := out.result.value]
      else out.next == db.next
  {
  }

  lemma GetStepKeeps(w: World, w': World, h: nat, k: Key, late: bool)
    requires Inv(w) && Gets(w, w', h, k, late)
    ensures Inv(w')
  {
    GetKeeps(w, w', h, k, late);
    assert OthersKeep(w, w', h);
    hide OwnStepOk, HandlesOk, HistOk, OwnersOk, OthersKeep;
    HandleStepKeeps(w, w', h);
  }

  lemma StartKeeps(w: World, w': World, h: nat)
    requires Inv(w) && Next(w, w', StartCommit(h))
    ensures Inv(w')
  {
    assert HandleOk(w.handles[h], w.traces[h], w.hist, Owned(w.owner, h));
    HandleStepKeeps(w, w', h);
  }

  lemma FreshNotStored(db: Db, hist: Versions, k: Key)
    requires HistOk(db, hist) && k.col in db.next && k.id > db.next[k.col]
    ensures k !in db.rows
  {
  }

  lemma DirectStepKeeps(w: World, w': World, step: Step)
    requires Inv(w) && Next(w, w', step) && (step.DirectInsert? || step.DirectUpdate?)
    ensures Inv(w')
  {
    match step
    case DirectInsert(col, data, exp) =>
      var k := Key(col, w.db.next[col] + 1);
      FreshNotStored(w.db, w.hist, k);
      DirectKeeps(w, w', k, Row(1, data, exp, 0));
    case DirectUpdate(k, data, exp) =>
      assert (k, w.db.rows[k].rev) in w.hist;
      DirectKeeps(w, w', k, Row(w.db.rows[k].rev + 1, data, exp, 0));
  }

  lemma StepKeepsInv(w: World, w': World, step: Step)
    requires Inv(w) && Next(w, w', step)
    ensures Inv(w')
  {
    hide Inv, Stages, Gets, Commits;
    match step
    case DirectInsert(_, _, _) => DirectStepKeeps(w, w', step);
    case DirectUpdate(_, _, _) => DirectStepKeeps(w, w', step);
    case DirectRemove(k) => DbKeeps(w, w');
    case Tick(now) => DbKeeps(w, w');
    case Begin(h, parts) => BeginKeeps(w, w', h, parts);
    case StageOp(h, r, late) => StageStepKeeps(w, w', h, r, late);
    case GetDoc(h, k, late) => GetStepKeeps(w, w', h, k, late);
    case StartCommit(h) => StartKeeps(w, w', h);
    case FinishCommit(h, verdict, ttl) =>
      if verdict.Proceed? && Commits(w, w', h, ttl) {
        CommitKeeps(w, w', h, ttl);
      } else {
        SettledKeeps(w, w', h, Settled(verdict));
      }
    case Abandon(h, phase) => SettledKeeps(w, w', h, phase);
  }

  function Settled(v: Answer): Phase {
    match v
    case Proceed => Failed
    case Refuse => Failed
    case Cancel => Open
    case Doubt => InDoubt
    case Replay => Done
  }

  /** A run: worlds linked by steps. */
  ghost predicate IsRun(worlds: seq<World>, steps: seq<Step>) {
    && |worlds| == |steps| + 1 && Init(worlds[0])
    && (forall i :: 0 <= i < |steps| ==> Next(worlds[i], worlds[i + 1], steps[i]))
  }

  lemma {:induction false} RunInv(worlds: seq<World>, steps: seq<Step>, i: nat)
    requires IsRun(worlds, steps) && i < |worlds|
    ensures Inv(worlds[i])
  {
    if i > 0 {
      RunInv(worlds, steps, i - 1);
      StepKeepsInv(worlds[i - 1], worlds[i], steps[i - 1]);
    }
  }

  /** In every interleaving every commit is serial. */
  lemma EveryCommitIsSerial(worlds: seq<World>, steps: seq<Step>, i: nat)
    requires IsRun(worlds, steps) && i < |steps| && steps[i].FinishCommit?
    requires steps[i].verdict.Proceed? && steps[i].h in worlds[i + 1].handles && worlds[i + 1].handles[steps[i].h].phase.Done?
    ensures SerialCommit(worlds[i], worlds[i + 1], steps[i].h, steps[i].ttl)
  {
    RunInv(worlds, steps, i);
    CommitSerializes(worlds[i], worlds[i + 1], steps[i].h, steps[i].ttl);
  }

  // ----- where the promise stops -------------------------------------------------------------------------

  /**
   Two staged updates of one stored document, the first with a deadline, the second without:
   run in order they leave the first deadline, folded they leave the stored one.
   */
  lemma FoldingLosesDeadline(k: Key, d: Data, stored: int, deadline: int, ttl: string -> int)
    requires deadline != 0 && deadline != stored
    ensures
      var t := [Did(k, Update, d, deadline), Did(k, Update, d, 0)];
      var n := NetOf(t, k);
      && n == Updated(d, 0, deadline) && DeadlineLost(n, Some(Row(1, d, stored, 0)))
      && DocAt(SerialRun(map[k := Doc(d, stored)], t, ttl), k).Some?
      && DocAt(SerialRun(map[k := Doc(d, stored)], t, ttl), k).value.expiresAt == deadline
      && Written(Some(Row(1, d, stored, 0)), k, Write(Update, n.data, 1, n.last), ttl).value.expiresAt == stored
  {
    var e1, e2 := Did(k, Update, d, deadline), Did(k, Update, d, 0);
    var t := [e1, e2];
    assert t[..1] == [e1] && t[..1][..0] == [];
    assert NetOf(t[..1], k) == NetStep(Untouched, e1, k);
    assert SerialRun(map[k := Doc(d, stored)], t[..1], ttl) == SerialStep(map[k := Doc(d, stored)], e1, ttl);
  }

  /** Validation misses a change of an observed document exactly if it is live before and after at the same revision. */
  lemma ChangeMissedExactlyWhen(db: Db, db': Db, k: Key)
    ensures
      var before, after := LiveAt(db, k), LiveAt(db', k);
      var seen := map[k := Obs(before.Some?, RevOf(before), false)];
      ReadsHold(seen, db') && after != before <==> before.Some? && after.Some? && RevOf(before) == RevOf(after) && after != before
  {
    var before := LiveAt(db, k);
    var seen := map[k := Obs(before.Some?, RevOf(before), false)];
    assert ReadsHold(seen, db') <==> seen[k].present == LiveAt(db', k).Some? && seen[k].rev == RevOf(LiveAt(db', k));
  }

  /** An id deleted and inserted again by its caller passes validation with other contents: versions no longer identify rows. */
  lemma ReusedIdPassesValidation(k: Key, before: Data, after: Data, now: int)
    requires before != after
    ensures
      var db := Db(map[k := Row(1, before, 0, 0)], map[k.col := k.id], now);
      var db' := Db(map[k := Row(1, after, 0, 0)], map[k.col := k.id], now);
      var seen := map[k := Obs(LiveAt(db, k).Some?, RevOf(LiveAt(db, k)), false)];
      ReadsHold(seen, db') && LiveAt(db', k) != LiveAt(db, k)
  {
  }
}
