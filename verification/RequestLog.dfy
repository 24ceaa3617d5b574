/**
 The request log's worker (yb-reqlog/src/lib.rs): records are buffered, committed
 to a write-ahead table, sealed into shards, and exported from both. A shard is
 written as a partial file and then renamed. Every step may fail or be cut short by
 a crash where the source lets it.
 */
module RequestLog {
  import opened Prelude

  datatype Rec = Rec(ts: int, requestId: string, isError: bool, key: Option<string>, tags: Option<string>)

  /** A buffered record. `turn` numbers the calls that logged it; nothing reads it. */
  datatype Entry = Entry(turn: nat, rec: Rec)

  /** A stored record: its surrogate id, and the process life that drew the id. */
  datatype Row = Row(id: nat, life: nat, turn: nat, rec: Rec)

  datatype Shard = Shard(rows: seq<Row>, sealedAt: int)

  datatype Log = Log(
    buf: seq<Entry>, nextId: nat, life: nat, turns: nat,
    wal: seq<Row>, shards: map<string, Shard>, partials: map<string, seq<Row>>)

  const FIRST_LOG := Log([], 1, 0, 0, [], map[], map[])

  predicate InShard(s: Log, r: Row) {
    exists n :: n in s.shards && r in s.shards[n].rows
  }

  predicate Held(s: Log, r: Row) {
    r in s.wal || InShard(s, r)
  }

  /** In a file that a copy left behind, which nothing exports. */
  predicate InPartial(s: Log, r: Row) {
    exists n :: n in s.partials && r in s.partials[n]
  }

  predicate OnDisk(s: Log, r: Row) {
    Held(s, r) || InPartial(s, r)
  }

  // ---------------------------------------------------------------------
  // Steps
  // ---------------------------------------------------------------------

  /** How far a rotation got. `written` rows had been copied when it stopped, and `left`
      are partial files that could not be removed. */
  datatype RotateEnd =
    | CopyFails(written: nat, left: set<string>)  // the copy or the rename failed
    | CrashCopying(written: nat)                  // a crash before the rename
    | NotEmptied                                  // sealed, then an error or a crash
    | NotPruned                                   // emptied, then an error or a crash
    | Rotated(cutoff: Option<int>, stuck: set<string>, left: set<string>)

  /** How a forget ended; one that stops has rewritten some shards and was at another. */
  datatype ForgetEnd =
    | Forgot
    | ForgetFails(at: string, written: nat, left: set<string>)
    | CrashForgetting(at: string, written: nat)

  datatype Step =
    | Record(rec: Rec)
    | Flush
    | FlushFails(drawn: nat)                      // ids drawn before the transaction failed
    | Rotate(name: string, now: int, end: RotateEnd)
    | Forget(keys: set<string>, listed: seq<string>, timed: set<string>, now: int, forgot: ForgetEnd)
    | Restart                                     // a crash, or a shutdown, and a fresh start

  function NewRows(s: Log): (rows: seq<Row>)
    ensures |rows| == |s.buf|
    ensures forall i :: 0 <= i < |rows| ==> rows[i] == Row(s.nextId + i, s.life, s.buf[i].turn, s.buf[i].rec)
  {
    seq(|s.buf|, i requires 0 <= i < |s.buf| => Row(s.nextId + i, s.life, s.buf[i].turn, s.buf[i].rec))
  }

  function Flushed(s: Log): Log {
    s.(buf := [], nextId := s.nextId + |s.buf|, wal := s.wal + NewRows(s))
  }

  /** The records of a failed transaction are lost, and so are the ids it drew. */
  function FlushLost(s: Log, drawn: nat): Log {
    s.(buf := [], nextId := s.nextId + drawn)
  }

  function Cut(rows: seq<Row>, written: nat): seq<Row> {
    if written < |rows| then rows[..written] else rows
  }

  /** The partial files but for those removed. */
  function Left(partials: map<string, seq<Row>>, left: set<string>): map<string, seq<Row>> {
    map n | n in partials && n in left :: partials[n]
  }

  /** A copy of the table was begun, if there is anything in it. */
  function Copying(s: Log, name: string, written: nat): Log {
    if s.wal == [] then s else s.(partials := s.partials[name := Cut(s.wal, written)])
  }

  /** Copied, over any partial file of that name, and renamed, over any shard of that name. */
  function Sealed(s: Log, name: string, now: int): Log {
    if s.wal == [] then s
    else s.(shards := s.shards[name := Shard(s.wal, now)], partials := s.partials - {name})
  }

  predicate Expired(s: Log, cutoff: Option<int>, name: string) {
    name in s.shards && cutoff.Some? && s.shards[name].sealedAt < cutoff.value
  }

  /** Partial files and expired shards go, but for those the filesystem will not give up. */
  function Pruned(s: Log, cutoff: Option<int>, stuck: set<string>, left: set<string>): Log {
    s.(shards := map n | n in s.shards && (!Expired(s, cutoff, n) || n in stuck) :: s.shards[n],
       partials := Left(s.partials, left))
  }

  function RotatedTo(s: Log, name: string, now: int, end: RotateEnd): Log {
    var s1 := Flushed(s);
    var s2 := Sealed(s1, name, now);
    match end
    case CopyFails(written, left) =>
      var c := Copying(s1, name, written);
      if s1.wal == [] then s1 else c.(partials := Left(c.partials, left))
    case CrashCopying(written) => Copying(s1, name, written)
    case NotEmptied => s2
    case NotPruned => s2.(wal := [])
    case Rotated(cutoff, stuck, left) => Pruned(s2.(wal := []), cutoff, stuck, left)
  }

  predicate Named(r: Row, keys: set<string>) {
    r.rec.key.Some? && r.rec.key.value in keys
  }

  function Without(rows: seq<Row>, keys: set<string>): seq<Row> {
    if rows == [] then []
    else
      var n := |rows| - 1;
      Without(rows[..n], keys) + if Named(rows[n], keys) then [] else [rows[n]]
  }

  /** The keyed turns leave a listed shard that holds any; its time stays when it can be read. */
  function ShardWithout(shard: Shard, keys: set<string>, timed: bool, now: int): Shard {
    if Without(shard.rows, keys) == shard.rows then shard
    else Shard(Without(shard.rows, keys), if timed then shard.sealedAt else now)
  }

  /** A listed shard that holds a keyed turn is copied, over any partial file of its name. */
  predicate IsRewritten(s: Log, keys: set<string>, listed: seq<string>, n: string) {
    n in listed && n in s.shards && Without(s.shards[n].rows, keys) != s.shards[n].rows
  }

  function Rewritten(s: Log, keys: set<string>, listed: seq<string>, timed: set<string>, now: int): Log {
    s.(shards := map n | n in s.shards ::
         if n in listed then ShardWithout(s.shards[n], keys, n in timed, now) else s.shards[n],
       partials := map n | n in s.partials && !IsRewritten(s, keys, listed, n) :: s.partials[n])
  }

  /** The copy of a shard without the keyed turns was begun. */
  function CopyingWithout(s: Log, keys: set<string>, at: string, written: nat): Log {
    if at in s.shards then s.(partials := s.partials[at := Cut(Without(s.shards[at].rows, keys), written)]) else s
  }

  /** A forget that rewrote the listed shards: all of them when it succeeded, some when it did not. */
  function Forgotten(s: Log, keys: set<string>, listed: seq<string>, timed: set<string>, now: int, end: ForgetEnd): Log {
    var s1 := Flushed(s);
    var t := Rewritten(s1.(wal := Without(s1.wal, keys)), keys, listed, timed, now);
    match end
    case Forgot => t
    case ForgetFails(at, written, left) =>
      var c := CopyingWithout(t, keys, at, written);
      c.(partials := Left(c.partials, left))
    case CrashForgetting(at, written) => CopyingWithout(t, keys, at, written)
  }

  function MaxId(rows: seq<Row>): nat {
    if rows == [] then 0
    else
      var rest := MaxId(rows[..|rows| - 1]);
      if rest < rows[|rows| - 1].id then rows[|rows| - 1].id else rest
  }

  /** The buffer is gone, and ids resume past those in the table alone. */
  function Restarted(s: Log): Log {
    s.(buf := [], nextId := MaxId(s.wal) + 1, life := s.life + 1)
  }

  function Next(s: Log, step: Step): Log {
    match step
    case Record(rec) => s.(buf := s.buf + [Entry(s.turns, rec)], turns := s.turns + 1)
    case Flush => Flushed(s)
    case FlushFails(drawn) => FlushLost(s, drawn)
    case Rotate(name, now, end) => RotatedTo(s, name, now, end)
    case Forget(keys, listed, timed, now, end) => Forgotten(s, keys, listed, timed, now, end)
    case Restart => Restarted(s)
  }

  function Run(steps: seq<Step>): Log {
    if steps == [] then FIRST_LOG else Next(Run(steps[..|steps| - 1]), steps[|steps| - 1])
  }

  // ---------------------------------------------------------------------
  // What every step keeps
  // ---------------------------------------------------------------------

  /** Rows of one turn, or of one id drawn in one life, are copies of each other;
      what is buffered is not stored yet; and ids to come are new to this life. */
  ghost predicate Sound(s: Log) {
    && (forall r, q :: Held(s, r) && Held(s, q) && r.turn == q.turn ==> r == q)
    && (forall r, q :: Held(s, r) && Held(s, q) && r.life == q.life && r.id == q.id ==> r == q)
    && (forall r :: Held(s, r) ==> r.turn < s.turns && r.life <= s.life && (r.life == s.life ==> r.id < s.nextId))
    && (forall i :: 0 <= i < |s.buf| ==> s.buf[i].turn < s.turns)
    && (forall i, j :: 0 <= i < j < |s.buf| ==> s.buf[i].turn != s.buf[j].turn)
    && (forall r, i :: Held(s, r) && 0 <= i < |s.buf| ==> r.turn != s.buf[i].turn)
  }

  /** A step that stores nothing new, and draws no id twice, keeps the log sound. */
  lemma ShrinkKeepsSound(s: Log, t: Log)
    requires Sound(s)
    requires forall r :: Held(t, r) ==> Held(s, r)
    requires t.turns == s.turns
    requires t.buf == s.buf || t.buf == []
    requires (t.life == s.life && t.nextId >= s.nextId) || t.life > s.life
    ensures Sound(t)
  {
  }

  lemma FlushedHolds(s: Log)
    ensures forall r :: Held(Flushed(s), r) <==> Held(s, r) || r in NewRows(s)
  {
    var t := Flushed(s);
    assert forall r :: r in t.wal <==> r in s.wal || r in NewRows(s);
    assert forall r :: InShard(t, r) <==> InShard(s, r);
  }

  /** A new row differs from every stored one, in turn and in id. */
  lemma NewRowIsNew(s: Log, r: Row)
    requires Sound(s) && r in NewRows(s)
    ensures r.life == s.life && s.nextId <= r.id < s.nextId + |s.buf| && r.turn < s.turns
    ensures forall q :: Held(s, q) ==> q.turn != r.turn && (q.life == r.life ==> q.id < r.id)
    ensures forall q :: q in NewRows(s) && (q.turn == r.turn || q.id == r.id) ==> q == r
  {
    var i :| 0 <= i < |s.buf| && NewRows(s)[i] == r;
    forall q | q in NewRows(s) && (q.turn == r.turn || q.id == r.id)
      ensures q == r
    {
      var j :| 0 <= j < |s.buf| && NewRows(s)[j] == q;
    }
  }

  lemma FlushKeepsSound(s: Log)
    requires Sound(s)
    ensures Sound(Flushed(s))
  {
    hide Held, NewRows;
    FlushedHolds(s);
    forall r | r in NewRows(s)
      ensures r.life == s.life && s.nextId <= r.id < s.nextId + |s.buf| && r.turn < s.turns
      ensures forall q :: Held(s, q) ==> q.turn != r.turn && (q.life == r.life ==> q.id < r.id)
      ensures forall q :: q in NewRows(s) && (q.turn == r.turn || q.id == r.id) ==> q == r
    {
      NewRowIsNew(s, r);
    }
  }

  lemma SealKeepsHeld(s: Log, name: string, now: int)
    ensures forall r :: Held(Sealed(s, name, now), r) ==> Held(s, r)
    ensures name !in s.shards ==> forall r :: Held(s, r) ==> Held(Sealed(s, name, now), r)
    ensures forall r :: r in s.wal ==> InShard(Sealed(s, name, now), r)
  {
    var t := Sealed(s, name, now);
    forall r | Held(s, r) && name !in s.shards
      ensures Held(t, r)
    {
      if r !in s.wal {
        var n :| n in s.shards && r in s.shards[n].rows;
        assert n in t.shards && r in t.shards[n].rows;
      }
    }
    forall r | r in s.wal
      ensures InShard(t, r)
    {
      assert name in t.shards && r in t.shards[name].rows;
    }
  }

  lemma RotateShrinks(s: Log, name: string, now: int, end: RotateEnd)
    ensures forall r :: Held(RotatedTo(s, name, now, end), r) ==> Held(Flushed(s), r)
  {
    var s1 := Flushed(s);
    SealKeepsHeld(s1, name, now);
    var s2 := Sealed(s1, name, now);
    var t := RotatedTo(s, name, now, end);
    forall r | Held(t, r)
      ensures Held(s1, r)
    {
      if InShard(t, r) {
        var n :| n in t.shards && r in t.shards[n].rows;
        assert end.CopyFails? || end.CrashCopying? || (n in s2.shards && r in s2.shards[n].rows);
        assert InShard(s1, r) || Held(s2, r);
      }
    }
  }

  lemma {:induction false} WithoutMembers(rows: seq<Row>, keys: set<string>)
    ensures forall r :: r in Without(rows, keys) <==> r in rows && !Named(r, keys)
  {
    if rows != [] {
      var n := |rows| - 1;
      WithoutMembers(rows[..n], keys);
      assert forall r :: r in rows <==> r in rows[..n] || r == rows[n];
    }
  }

  lemma ForgetShrinks(s: Log, keys: set<string>, listed: seq<string>, timed: set<string>, now: int, end: ForgetEnd)
    ensures forall r :: Held(Forgotten(s, keys, listed, timed, now, end), r) ==> Held(Flushed(s), r)
  {
    var s1 := Flushed(s);
    var t := Forgotten(s, keys, listed, timed, now, end);
    WithoutMembers(s1.wal, keys);
    forall r | InShard(t, r)
      ensures InShard(s1, r)
    {
      var n :| n in t.shards && r in t.shards[n].rows;
      WithoutMembers(s1.shards[n].rows, keys);
      assert n in s1.shards && r in s1.shards[n].rows;
    }
  }

  lemma RecordKeepsSound(s: Log, rec: Rec)
    requires Sound(s)
    ensures Sound(Next(s, Record(rec)))
  {
    assert forall r :: Held(Next(s, Record(rec)), r) <==> Held(s, r);
  }

  lemma StepKeepsSound(s: Log, step: Step)
    requires Sound(s)
    ensures Sound(Next(s, step))
  {
    hide Sound, Sealed, Pruned, Rewritten, Copying, CopyingWithout;
    var t := Next(s, step);
    FlushKeepsSound(s);
    match step
    case Record(rec) => RecordKeepsSound(s, rec);
    case Flush =>
    case FlushFails(drawn) => ShrinkKeepsSound(s, t);
    case Rotate(name, now, end) =>
      RotateShrinks(s, name, now, end);
      RotateCounters(s, name, now, end);
      ShrinkKeepsSound(Flushed(s), t);
    case Forget(keys, listed, timed, now, end) =>
      ForgetShrinks(s, keys, listed, timed, now, end);
      ForgetCounters(s, keys, listed, timed, now, end);
      ShrinkKeepsSound(Flushed(s), t);
    case Restart => ShrinkKeepsSound(s, t);
  }

  lemma RotateCounters(s: Log, name: string, now: int, end: RotateEnd)
    ensures var (s1, t) := (Flushed(s), RotatedTo(s, name, now, end));
            t.buf == s1.buf && t.turns == s1.turns && t.life == s1.life && t.nextId == s1.nextId
  {
  }

  lemma ForgetCounters(s: Log, keys: set<string>, listed: seq<string>, timed: set<string>, now: int, end: ForgetEnd)
    ensures var (s1, t) := (Flushed(s), Forgotten(s, keys, listed, timed, now, end));
            t.buf == s1.buf && t.turns == s1.turns && t.life == s1.life && t.nextId == s1.nextId
  {
  }

  /** Every run, with any failures, crashes and restarts, is sound. */
  lemma {:induction false} RunIsSound(steps: seq<Step>)
    ensures Sound(Run(steps))
  {
    if steps != [] {
      RunIsSound(steps[..|steps| - 1]);
      StepKeepsSound(Run(steps[..|steps| - 1]), steps[|steps| - 1]);
    }
  }

  /** A shard of the table's name held it, and nothing else does. */
  predicate Overwritten(s: Log, name: string, r: Row) {
    s.wal != [] && r !in s.wal && forall n :: n in s.shards && r in s.shards[n].rows ==> n == name
  }

  /** Every shard that holds it goes. */
  predicate AllExpired(s: Log, cutoff: Option<int>, stuck: set<string>, r: Row) {
    forall n :: n in s.shards && r in s.shards[n].rows ==> Expired(s, cutoff, n) && n !in stuck
  }

  lemma SealedHolds(s: Log, name: string, now: int, r: Row)
    requires Held(s, r)
    ensures InShard(Sealed(s, name, now), r) <==> !Overwritten(s, name, r) && (s.wal == [] ==> InShard(s, r))
  {
    var t := Sealed(s, name, now);
    if s.wal != [] {
      if r in s.wal {
        assert name in t.shards && r in t.shards[name].rows;
      }
      if n :| n in s.shards && r in s.shards[n].rows && n != name {
        assert n in t.shards && r in t.shards[n].rows;
      }
    }
  }

  /** Wherever a rotation stops, a stored turn is lost if and only if its only shard was
      overwritten by one of the same name, or the rotation went through and every shard that
      held it had expired and could be removed. */
  lemma RotateLosesIff(s: Log, name: string, now: int, end: RotateEnd, r: Row)
    requires Held(Flushed(s), r)
    ensures !Held(RotatedTo(s, name, now, end), r) <==>
            || (!end.CopyFails? && !end.CrashCopying? && Overwritten(Flushed(s), name, r))
            || (end.Rotated? && AllExpired(Sealed(Flushed(s), name, now), end.cutoff, end.stuck, r))
  {
    hide Flushed, Overwritten, Left;
    var s1 := Flushed(s);
    var s2 := Sealed(s1, name, now);
    var t := RotatedTo(s, name, now, end);
    SealedHolds(s1, name, now, r);
    OverwrittenIsHeld(s1, name, r);
    SealedKeepsTable(s1, name, now);
    match end
    case CopyFails(written, left) => SameHeld(s1, t, r);
    case CrashCopying(written) => SameHeld(s1, t, r);
    case NotEmptied =>
    case NotPruned => SameShards(s2, t, r);
    case Rotated(cutoff, stuck, left) => PrunedHolds(s2, t, cutoff, stuck, left, r);
  }

  lemma OverwrittenIsHeld(s: Log, name: string, r: Row)
    ensures Overwritten(s, name, r) ==> s.wal != [] && r !in s.wal
    ensures s.wal == [] ==> r !in s.wal
  {
  }

  lemma SealedKeepsTable(s: Log, name: string, now: int)
    ensures Sealed(s, name, now).wal == s.wal
  {
  }

  lemma SameHeld(s: Log, t: Log, r: Row)
    requires t.wal == s.wal && t.shards == s.shards
    ensures Held(t, r) <==> Held(s, r)
  {
  }

  lemma SameShards(s: Log, t: Log, r: Row)
    requires t.wal == [] && t.shards == s.shards
    ensures Held(t, r) <==> InShard(s, r)
  {
  }

  lemma PrunedHolds(s: Log, t: Log, cutoff: Option<int>, stuck: set<string>, left: set<string>, r: Row)
    requires t == Pruned(s.(wal := []), cutoff, stuck, left)
    ensures Held(t, r) <==> !AllExpired(s, cutoff, stuck, r)
  {
    hide Left;
    if n :| n in s.shards && r in s.shards[n].rows && !(Expired(s, cutoff, n) && n !in stuck) {
      assert n in t.shards && r in t.shards[n].rows;
    }
  }

  // ---------------------------------------------------------------------
  // Export
  // ---------------------------------------------------------------------

  predicate SameKey(r: Row, q: Row) {
    r.id == q.id && r.rec.ts == q.rec.ts && r.rec.requestId == q.rec.requestId
  }

  /** Rows an export may take. */
  predicate Exportable(s: Log, wanted: Rec -> bool, r: Row) {
    Held(s, r) && !r.rec.isError && wanted(r.rec)
  }

  /** One row, whichever, of each (id, time, request) among those the filter takes. */
  ghost predicate IsPick(s: Log, wanted: Rec -> bool, picked: seq<Row>) {
    && (forall i :: 0 <= i < |picked| ==> Exportable(s, wanted, picked[i]))
    && (forall i, j :: 0 <= i < j < |picked| ==> !SameKey(picked[i], picked[j]))
    && (forall r :: Exportable(s, wanted, r) ==> exists i :: 0 <= i < |picked| && SameKey(picked[i], r))
  }

  /** The rows whose tags match. */
  function Tagged(rows: seq<Row>, tagged: Rec -> bool): seq<Row> {
    if rows == [] then []
    else
      var n := |rows| - 1;
      Tagged(rows[..n], tagged) + if tagged(rows[n].rec) then [rows[n]] else []
  }

  /** Tags are matched after one row of each key has been picked. */
  ghost predicate IsExport(s: Log, wanted: Rec -> bool, tagged: Rec -> bool, out: seq<Row>) {
    exists picked :: IsPick(s, wanted, picked) && out == Tagged(picked, tagged)
  }

  /** The turn is in the export once, and nothing else is there for it. */
  ghost predicate ExportedOnce(out: seq<Row>, turn: nat) {
    exists i :: 0 <= i < |out| && out[i].turn == turn &&
                forall j :: 0 <= j < |out| && out[j].turn == turn ==> j == i
  }

  /** Turns of different process lives differ in time or request. */
  ghost predicate LivesDiffer(s: Log) {
    forall r, q :: Held(s, r) && Held(s, q) && r.life != q.life ==>
      r.rec.ts != q.rec.ts || r.rec.requestId != q.rec.requestId
  }

  /** No turn to be exported shares id, time and request with another the filter takes. */
  ghost predicate KeysTellTurns(s: Log, wanted: Rec -> bool, tagged: Rec -> bool) {
    forall r, q :: Exportable(s, wanted, r) && Exportable(s, wanted, q) && SameKey(r, q) && tagged(r.rec) ==> r.turn == q.turn
  }

  lemma OneRowPerTurn(s: Log, r: Row, q: Row)
    requires Sound(s) && Held(s, r) && Held(s, q) && r.turn == q.turn
    ensures r == q
  {
  }

  lemma {:induction false} TaggedMembers(rows: seq<Row>, tagged: Rec -> bool)
    ensures forall r :: r in Tagged(rows, tagged) <==> r in rows && tagged(r.rec)
    decreases |rows|
  {
    if rows != [] {
      var n := |rows| - 1;
      TaggedMembers(rows[..n], tagged);
      assert forall r :: r in rows <==> r in rows[..n] || r == rows[n];
    }
  }

  predicate KeysDiffer(rows: seq<Row>) {
    forall i, j :: 0 <= i < j < |rows| ==> !SameKey(rows[i], rows[j])
  }

  lemma {:induction false} TaggedKeysDiffer(rows: seq<Row>, tagged: Rec -> bool)
    requires KeysDiffer(rows)
    ensures KeysDiffer(Tagged(rows, tagged))
    decreases |rows|
  {
    if rows != [] {
      var n := |rows| - 1;
      TaggedKeysDiffer(rows[..n], tagged);
      TaggedMembers(rows[..n], tagged);
      forall k | 0 <= k < |Tagged(rows[..n], tagged)|
        ensures !SameKey(Tagged(rows[..n], tagged)[k], rows[n])
      {
        assert Tagged(rows[..n], tagged)[k] in rows[..n];
      }
    }
  }

  /** A row in an export is there for its turn alone, and its turn has no other. */
  lemma InExportOnce(s: Log, wanted: Rec -> bool, tagged: Rec -> bool, picked: seq<Row>, r: Row)
    requires Sound(s) && IsPick(s, wanted, picked) && r in Tagged(picked, tagged)
    ensures ExportedOnce(Tagged(picked, tagged), r.turn)
  {
    hide Sound, Held, Tagged;
    var out := Tagged(picked, tagged);
    TaggedMembers(picked, tagged);
    TaggedKeysDiffer(picked, tagged);
    var i :| 0 <= i < |out| && out[i] == r;
    forall j | 0 <= j < |out| && out[j].turn == r.turn
      ensures j == i
    {
      assert out[i] in out && out[j] in out;
      assert Exportable(s, wanted, out[i]) && Exportable(s, wanted, out[j]);
      OneRowPerTurn(s, out[i], out[j]);
      assert SameKey(out[i], out[j]) && SameKey(out[j], out[i]);
    }
  }

  lemma ToldTurnExportedOnce(s: Log, wanted: Rec -> bool, tagged: Rec -> bool, picked: seq<Row>, r: Row)
    requires Sound(s) && IsPick(s, wanted, picked) && KeysTellTurns(s, wanted, tagged)
    requires Exportable(s, wanted, r) && tagged(r.rec)
    ensures ExportedOnce(Tagged(picked, tagged), r.turn)
  {
    hide Sound, Held, Tagged, ExportedOnce;
    var i :| 0 <= i < |picked| && SameKey(picked[i], r);
    assert Exportable(s, wanted, picked[i]);
    assert SameKey(r, picked[i]);
    OneRowPerTurn(s, picked[i], r);
    assert r in picked;
    TaggedMembers(picked, tagged);
    InExportOnce(s, wanted, tagged, picked, r);
  }

  /** Every row the log holds, in some order. */
  ghost function HeldRows(s: Log, names: set<string>): seq<Row>
    requires names <= s.shards.Keys
  {
    if names == {} then s.wal
    else
      var n :| n in names;
      HeldRows(s, names - {n}) + s.shards[n].rows
  }

  lemma {:induction false} HeldRowsHold(s: Log, names: set<string>)
    requires names <= s.shards.Keys
    ensures forall r :: r in HeldRows(s, names) <==> r in s.wal || exists n :: n in names && r in s.shards[n].rows
    decreases |names|
  {
    if names != {} {
      var n :| n in names && HeldRows(s, names) == HeldRows(s, names - {n}) + s.shards[n].rows;
      HeldRowsHold(s, names - {n});
      forall r
        ensures (exists m :: m in names && r in s.shards[m].rows) <==>
                r in s.shards[n].rows || exists m :: m in names - {n} && r in s.shards[m].rows
      {
        if m :| m in names && r in s.shards[m].rows && m != n {
          assert m in names - {n};
        }
      }
    }
  }

  /** The first row of each key. */
  ghost function FirstOfKeys(s: Log, wanted: Rec -> bool, rows: seq<Row>): seq<Row> {
    if rows == [] then []
    else
      var n := |rows| - 1;
      var before := FirstOfKeys(s, wanted, rows[..n]);
      if Exportable(s, wanted, rows[n]) && !InOut(before, rows[n]) then before + [rows[n]] else before
  }

  lemma {:induction false} FirstOfKeysPicks(s: Log, wanted: Rec -> bool, rows: seq<Row>)
    ensures var picked := FirstOfKeys(s, wanted, rows);
            && (forall i :: 0 <= i < |picked| ==> Exportable(s, wanted, picked[i]))
            && KeysDiffer(picked)
            && (forall k :: 0 <= k < |rows| && Exportable(s, wanted, rows[k]) ==> InOut(picked, rows[k]))
            && (rows != [] && Exportable(s, wanted, rows[0]) ==> rows[0] in picked)
    decreases |rows|
  {
    hide Exportable;
    if rows != [] {
      var n := |rows| - 1;
      FirstOfKeysPicks(s, wanted, rows[..n]);
      var before := FirstOfKeys(s, wanted, rows[..n]);
      var picked := FirstOfKeys(s, wanted, rows);
      if Exportable(s, wanted, rows[n]) && !InOut(before, rows[n]) {
        assert SameKey(picked[|before|], rows[n]);
      }
      forall k | 0 <= k < n && Exportable(s, wanted, rows[k])
        ensures InOut(picked, rows[k])
      {
        assert rows[..n][k] == rows[k];
        var m :| 0 <= m < |before| && SameKey(before[m], rows[k]);
        assert picked[m] == before[m];
      }
      if n > 0 {
        assert rows[..n][0] == rows[0];
      } else {
        assert before == [];
      }
    }
  }

  /** Any row that may be exported may be the one picked for its key. */
  lemma SomePick(s: Log, wanted: Rec -> bool, q: Row) returns (picked: seq<Row>)
    requires Exportable(s, wanted, q)
    ensures IsPick(s, wanted, picked) && q in picked
  {
    hide Exportable, HeldRows, FirstOfKeys;
    var rows := [q] + HeldRows(s, s.shards.Keys);
    picked := FirstOfKeys(s, wanted, rows);
    FirstOfKeysPicks(s, wanted, rows);
    assert rows[0] == q;
    forall r | Exportable(s, wanted, r)
      ensures exists i :: 0 <= i < |picked| && SameKey(picked[i], r)
    {
      AllHeld(s, wanted, r);
      var k :| 0 <= k < |HeldRows(s, s.shards.Keys)| && HeldRows(s, s.shards.Keys)[k] == r;
      assert rows[k + 1] == r;
      assert InOut(picked, rows[k + 1]);
    }
  }

  lemma AllHeld(s: Log, wanted: Rec -> bool, r: Row)
    requires Exportable(s, wanted, r)
    ensures r in HeldRows(s, s.shards.Keys)
  {
    HeldRowsHold(s, s.shards.Keys);
  }

  /** With another row picked for its key, a turn is not exported. */
  lemma OtherPickedDropsIt(s: Log, wanted: Rec -> bool, tagged: Rec -> bool, picked: seq<Row>, r: Row, q: Row)
    requires Sound(s) && IsPick(s, wanted, picked) && q in picked
    requires Exportable(s, wanted, r) && SameKey(r, q) && r.turn != q.turn
    ensures !ExportedOnce(Tagged(picked, tagged), r.turn)
  {
    hide Sound, Held, Tagged, IsPick, Exportable, SameKey;
    var out := Tagged(picked, tagged);
    TaggedMembers(picked, tagged);
    forall i | 0 <= i < |out|
      ensures out[i].turn != r.turn
    {
      assert out[i] in out;
      PickedIsHeld(s, wanted, picked, out[i], r);
      if out[i].turn == r.turn {
        OneRowPerTurn(s, out[i], r);
        OnePerKey(s, wanted, picked, r, q);
      }
    }
  }

  lemma PickedIsHeld(s: Log, wanted: Rec -> bool, picked: seq<Row>, r: Row, q: Row)
    requires IsPick(s, wanted, picked) && r in picked && Exportable(s, wanted, q)
    ensures Held(s, r) && Held(s, q)
  {
    hide Held;
  }

  lemma OnePerKey(s: Log, wanted: Rec -> bool, picked: seq<Row>, r: Row, q: Row)
    requires IsPick(s, wanted, picked) && r in picked && q in picked && SameKey(r, q)
    ensures r == q
  {
    hide Exportable;
    var i :| 0 <= i < |picked| && picked[i] == r;
    var j :| 0 <= j < |picked| && picked[j] == q;
    assert SameKey(q, r);
    assert i == j;
  }

  /** In a sound log every export, whichever rows it picks, carries every turn it should exactly
      once, if and only if none of those turns shares id, time and request with another that
      the filter takes. */
  lemma ExportCompleteIff(s: Log, wanted: Rec -> bool, tagged: Rec -> bool)
    requires Sound(s)
    ensures (forall out, r :: IsExport(s, wanted, tagged, out) && Exportable(s, wanted, r) && tagged(r.rec) ==>
               ExportedOnce(out, r.turn)) <==> KeysTellTurns(s, wanted, tagged)
  {
    hide Sound, Held, IsPick, ExportedOnce, Exportable, SameKey, Tagged;
    if KeysTellTurns(s, wanted, tagged) {
      forall out, r | IsExport(s, wanted, tagged, out) && Exportable(s, wanted, r) && tagged(r.rec)
        ensures ExportedOnce(out, r.turn)
      {
        var picked :| IsPick(s, wanted, picked) && out == Tagged(picked, tagged);
        ToldTurnExportedOnce(s, wanted, tagged, picked, r);
      }
    } else {
      var r, q :| Exportable(s, wanted, r) && Exportable(s, wanted, q) && SameKey(r, q) && tagged(r.rec) && r.turn != q.turn;
      var picked := SomePick(s, wanted, q);
      OtherPickedDropsIt(s, wanted, tagged, picked, r, q);
      assert IsExport(s, wanted, tagged, Tagged(picked, tagged));
    }
  }

  /** What an export reads: shards only if there were any when it looked, before its query. */
  function Seen(hadShards: bool, s: Log): Log {
    if hadShards then s else s.(shards := map[])
  }

  lemma SeenIsSound(hadShards: bool, s: Log)
    requires Sound(s)
    ensures Sound(Seen(hadShards, s))
    ensures forall r :: Held(Seen(hadShards, s), r) <==> r in s.wal || (hadShards && InShard(s, r))
  {
    var t := Seen(hadShards, s);
    assert forall r :: Held(t, r) ==> Held(s, r);
    ShrinkKeepsSound(s, t);
  }

  /** Every turn to be exported can be read: it is in the table, or there were shards to see. */
  ghost predicate AllSeen(hadShards: bool, s: Log, wanted: Rec -> bool, tagged: Rec -> bool) {
    forall r :: Exportable(s, wanted, r) && tagged(r.rec) ==> Held(Seen(hadShards, s), r)
  }

  lemma EmptyOrSomePick(s: Log, wanted: Rec -> bool) returns (picked: seq<Row>)
    ensures IsPick(s, wanted, picked)
  {
    hide Exportable;
    if q :| Exportable(s, wanted, q) {
      picked := SomePick(s, wanted, q);
    } else {
      picked := [];
    }
  }

  /** A turn that cannot be read is in no export. */
  lemma UnseenIsMissing(hadShards: bool, s: Log, wanted: Rec -> bool, tagged: Rec -> bool, picked: seq<Row>, r: Row)
    requires Sound(s) && Held(s, r) && !Held(Seen(hadShards, s), r)
    requires IsPick(Seen(hadShards, s), wanted, picked)
    ensures !ExportedOnce(Tagged(picked, tagged), r.turn)
  {
    hide Sound, Held, Tagged, IsPick, Seen;
    var out := Tagged(picked, tagged);
    TaggedMembers(picked, tagged);
    forall i | 0 <= i < |out|
      ensures out[i].turn != r.turn
    {
      assert out[i] in out;
      PickedIsSeen(hadShards, s, wanted, picked, out[i]);
      if out[i].turn == r.turn {
        OneRowPerTurn(s, out[i], r);
      }
    }
  }

  lemma PickedIsSeen(hadShards: bool, s: Log, wanted: Rec -> bool, picked: seq<Row>, r: Row)
    requires IsPick(Seen(hadShards, s), wanted, picked) && r in picked
    ensures Held(Seen(hadShards, s), r) && Held(s, r)
  {
    var i :| 0 <= i < |picked| && picked[i] == r;
    assert Exportable(Seen(hadShards, s), wanted, picked[i]);
  }

  /** An export that looked for shards before its query carries every turn it should exactly
      once, whichever rows it picks, if and only if all of them can be read and none of them
      shares id, time and request with another that is read. */
  lemma LateExportCompleteIff(hadShards: bool, s: Log, wanted: Rec -> bool, tagged: Rec -> bool)
    requires Sound(s)
    ensures (forall out, r :: IsExport(Seen(hadShards, s), wanted, tagged, out) && Exportable(s, wanted, r) && tagged(r.rec) ==>
               ExportedOnce(out, r.turn)) <==>
            AllSeen(hadShards, s, wanted, tagged) && KeysTellTurns(Seen(hadShards, s), wanted, tagged)
  {
    hide Sound, Held, IsPick, ExportedOnce, Tagged, Seen, KeysTellTurns;
    var t := Seen(hadShards, s);
    SeenIsSound(hadShards, s);
    SeenIsHeld(hadShards, s);
    ExportCompleteIff(t, wanted, tagged);
    if !AllSeen(hadShards, s, wanted, tagged) {
      var r :| Exportable(s, wanted, r) && tagged(r.rec) && !Held(t, r);
      var picked := EmptyOrSomePick(t, wanted);
      UnseenIsMissing(hadShards, s, wanted, tagged, picked, r);
      assert IsExport(t, wanted, tagged, Tagged(picked, tagged));
    }
  }

  lemma SeenIsHeld(hadShards: bool, s: Log)
    ensures forall r :: Held(Seen(hadShards, s), r) ==> Held(s, r)
  {
  }

  lemma LivesTellTurns(s: Log, wanted: Rec -> bool, tagged: Rec -> bool)
    requires Sound(s) && LivesDiffer(s)
    ensures KeysTellTurns(s, wanted, tagged)
  {
  }

  /** After any run in which turns of different lives differ in time or request, every export
      carries every turn it should exactly once: one that looked for shards at any earlier
      point of the run and found some, or whose turns are all still in the table. */
  lemma RunExportsOnce(steps: seq<Step>, looked: nat, wanted: Rec -> bool, tagged: Rec -> bool, out: seq<Row>, r: Row)
    requires looked <= |steps| && LivesDiffer(Run(steps))
    requires AllSeen(Run(steps[..looked]).shards != map[], Run(steps), wanted, tagged)
    requires IsExport(Seen(Run(steps[..looked]).shards != map[], Run(steps)), wanted, tagged, out)
    requires Exportable(Run(steps), wanted, r) && tagged(r.rec)
    ensures ExportedOnce(out, r.turn)
  {
    hide Run, Sound, LivesDiffer, IsExport, Exportable, KeysTellTurns, ExportedOnce, AllSeen, Seen;
    var had := Run(steps[..looked]).shards != map[];
    RunIsSound(steps);
    SeenLivesDiffer(had, Run(steps));
    SeenIsSound(had, Run(steps));
    LivesTellTurns(Seen(had, Run(steps)), wanted, tagged);
    LateExportCompleteIff(had, Run(steps), wanted, tagged);
  }

  lemma SeenLivesDiffer(hadShards: bool, s: Log)
    requires LivesDiffer(s)
    ensures LivesDiffer(Seen(hadShards, s))
  {
    hide Held;
    SeenIsHeld(hadShards, s);
  }

  /** With nothing in between, an export sees all there is. */
  lemma AtOnceAllIsSeen(s: Log, wanted: Rec -> bool, tagged: Rec -> bool)
    ensures AllSeen(s.shards != map[], s, wanted, tagged)
  {
    if s.shards == map[] {
      assert forall r :: !InShard(s, r);
    }
  }

  /** An export that looks before the first rotation and reads after it finds nothing. */
  lemma AnExportThatMisses(rec: Rec)
    requires !rec.isError
    ensures var steps := [Record(rec), Rotate("a", 0, Rotated(None, {}, {}))];
            && Run(steps[..1]).shards == map[]
            && Exportable(Run(steps), _ => true, Row(1, 0, 0, rec))
            && forall r :: !Held(Seen(false, Run(steps)), r)
  {
    var steps := [Record(rec), Rotate("a", 0, Rotated(None, {}, {}))];
    var s := SealedRun(rec);
    assert steps[..1] == [Record(rec)] && [Record(rec)][..0] == [];
    assert "a" in s.shards && Row(1, 0, 0, rec) in s.shards["a"].rows;
  }

  /** Ids start over once a rotation has emptied the table, so two lives can share one. */
  lemma IdsRepeatAcrossLives(rec: Rec)
    requires !rec.isError
    ensures var steps := [Record(rec), Rotate("a", 0, Rotated(None, {}, {})), Restart, Record(rec), Flush];
            !KeysTellTurns(Run(steps), _ => true, _ => true)
  {
    var s1 := Next(FIRST_LOG, Record(rec));
    var s2 := Next(s1, Rotate("a", 0, Rotated(None, {}, {})));
    var s3 := Next(s2, Restart);
    var s4 := Next(s3, Record(rec));
    var s5 := Next(s4, Flush);
    RunFive(Record(rec), Rotate("a", 0, Rotated(None, {}, {})), Restart, Record(rec), Flush);
    var r, q := Row(1, 0, 0, rec), Row(1, 1, 1, rec);
    assert NewRows(s1) == [r];
    assert s2.shards["a"].rows == [r] && s3.nextId == 1;
    assert NewRows(s4) == [q];
    assert "a" in s5.shards && r in s5.shards["a"].rows;
    assert q in s5.wal;
    assert Exportable(s5, _ => true, r) && Exportable(s5, _ => true, q);
  }

  lemma RunFive(a: Step, b: Step, c: Step, d: Step, e: Step)
    ensures Run([a, b, c, d, e]) == Next(Next(Next(Next(Next(FIRST_LOG, a), b), c), d), e)
  {
    hide Next;
    assert [a, b, c, d, e][..4] == [a, b, c, d] && [a, b, c, d][..3] == [a, b, c];
    assert [a, b, c][..2] == [a, b] && [a, b][..1] == [a];
    assert Run([a]) == Next(FIRST_LOG, a);
    assert Run([a, b]) == Next(Run([a]), b);
    assert Run([a, b, c]) == Next(Run([a, b]), c);
    assert Run([a, b, c, d]) == Next(Run([a, b, c]), d);
  }

  // ---------------------------------------------------------------------
  // Forgetting
  // ---------------------------------------------------------------------

  /** Every shard that holds a keyed turn was listed. */
  ghost predicate AllListed(s: Log, keys: set<string>, listed: seq<string>) {
    forall n, r :: n in s.shards && r in s.shards[n].rows && Named(r, keys) ==> n in listed
  }

  /** No partial file holds a keyed turn, but for one that a rewrite of its shard replaces. */
  ghost predicate NoPartialHolds(s: Log, keys: set<string>, listed: seq<string>) {
    forall n, r :: n in s.partials && r in s.partials[n] && Named(r, keys) ==> IsRewritten(s, keys, listed, n)
  }

  /** A forget that succeeds leaves no turn of the named keys in the table or a shard exactly
      when it was shown every shard that held one, and none on disk at all exactly when besides
      no partial file holds one: it answers success after a directory it could not list, and
      passes over what a crash left half written. */
  lemma ForgetLeavesNoneIff(s: Log, keys: set<string>, listed: seq<string>, timed: set<string>, now: int)
    ensures var t := Forgotten(s, keys, listed, timed, now, Forgot);
            && ((forall r :: Held(t, r) ==> !Named(r, keys)) <==> AllListed(s, keys, listed))
            && ((forall r :: OnDisk(t, r) ==> !Named(r, keys)) <==>
                AllListed(s, keys, listed) && NoPartialHolds(s, keys, listed))
  {
    hide Held, InPartial, AllListed, NoPartialHolds;
    HeldNoneIff(s, keys, listed, timed, now);
    PartialNoneIff(s, keys, listed, timed, now);
  }

  lemma HeldNoneIff(s: Log, keys: set<string>, listed: seq<string>, timed: set<string>, now: int)
    ensures (forall r :: Held(Forgotten(s, keys, listed, timed, now, Forgot), r) ==> !Named(r, keys)) <==>
            AllListed(s, keys, listed)
  {
    hide IsRewritten;
    var s1 := Flushed(s);
    var t := Forgotten(s, keys, listed, timed, now, Forgot);
    WithoutMembers(s1.wal, keys);
    forall n | n in s.shards
      ensures n in t.shards
      ensures n in listed ==> forall r :: r in t.shards[n].rows <==> r in s.shards[n].rows && !Named(r, keys)
      ensures n !in listed ==> t.shards[n] == s.shards[n]
    {
      WithoutMembers(s.shards[n].rows, keys);
    }
    if n, r :| n in s.shards && r in s.shards[n].rows && Named(r, keys) && n !in listed {
      assert n in t.shards && r in t.shards[n].rows;
    }
  }

  lemma PartialNoneIff(s: Log, keys: set<string>, listed: seq<string>, timed: set<string>, now: int)
    ensures (forall r :: InPartial(Forgotten(s, keys, listed, timed, now, Forgot), r) ==> !Named(r, keys)) <==>
            NoPartialHolds(s, keys, listed)
  {
    hide Without;
    var t := Forgotten(s, keys, listed, timed, now, Forgot);
    assert forall n :: IsRewritten(Flushed(s).(wal := t.wal), keys, listed, n) <==> IsRewritten(s, keys, listed, n);
    if n, r :| n in s.partials && r in s.partials[n] && Named(r, keys) && !IsRewritten(s, keys, listed, n) {
      assert n in t.partials && r in t.partials[n];
    }
  }

  /** Once a rotation has gone through and removed the partial files, a forget that was shown
      every shard has left nothing on disk. */
  lemma ForgetThenRotateLeavesNone(
    s: Log, keys: set<string>, listed: seq<string>, timed: set<string>, now: int,
    name: string, later: int, cutoff: Option<int>, stuck: set<string>)
    requires AllListed(s, keys, listed)
    ensures var t := RotatedTo(Forgotten(s, keys, listed, timed, now, Forgot), name, later, Rotated(cutoff, stuck, {}));
            forall r :: OnDisk(t, r) ==> !Named(r, keys)
  {
    hide Forgotten, AllListed, Held, InPartial, RotatedTo;
    var f := Forgotten(s, keys, listed, timed, now, Forgot);
    var end := Rotated(cutoff, stuck, {});
    HeldNoneIff(s, keys, listed, timed, now);
    ForgetFlushes(s, keys, listed, timed, now);
    RotateShrinks(f, name, later, end);
    NothingToFlush(f);
    NoPartials(f, name, later, cutoff, stuck);
  }

  lemma ForgetFlushes(s: Log, keys: set<string>, listed: seq<string>, timed: set<string>, now: int)
    ensures Forgotten(s, keys, listed, timed, now, Forgot).buf == []
  {
  }

  lemma NothingToFlush(s: Log)
    requires s.buf == []
    ensures Flushed(s) == s
  {
    assert NewRows(s) == [];
  }

  lemma NoPartials(s: Log, name: string, now: int, cutoff: Option<int>, stuck: set<string>)
    ensures forall r :: !InPartial(RotatedTo(s, name, now, Rotated(cutoff, stuck, {})), r)
  {
    hide Flushed, Sealed;
  }

  /** Every other turn stays where it was, and a shard's pruning time changes exactly when the
      shard is rewritten, its time could not be read and the two differ. */
  lemma ForgetKeepsTheRest(s: Log, keys: set<string>, listed: seq<string>, timed: set<string>, now: int, end: ForgetEnd)
    ensures var t := Forgotten(s, keys, listed, timed, now, end);
            && t.wal == Without(Flushed(s).wal, keys)
            && t.shards.Keys == s.shards.Keys
            && (forall n :: n in s.shards && n in listed ==> t.shards[n].rows == Without(s.shards[n].rows, keys))
            && (forall n :: n in s.shards && n !in listed ==> t.shards[n] == s.shards[n])
            && (forall n :: n in s.shards ==>
                  (t.shards[n].sealedAt != s.shards[n].sealedAt <==>
                   n in listed && n !in timed && now != s.shards[n].sealedAt && HoldsNamed(s.shards[n].rows, keys)))
    ensures forall r :: Held(Flushed(s), r) && !Named(r, keys) ==> Held(Forgotten(s, keys, listed, timed, now, end), r)
  {
    hide IsRewritten, Left, Cut, Without;
    var s1 := Flushed(s);
    var t := Forgotten(s, keys, listed, timed, now, end);
    forall n | n in s.shards
      ensures Without(s.shards[n].rows, keys) != s.shards[n].rows <==> HoldsNamed(s.shards[n].rows, keys)
    {
      HoldsNamedIff(s.shards[n].rows, keys);
    }
    hide HoldsNamed;
    StillHeld(s, keys, listed, timed, now, end);
  }

  predicate HoldsNamed(rows: seq<Row>, keys: set<string>) {
    exists r :: r in rows && Named(r, keys)
  }

  lemma HoldsNamedIff(rows: seq<Row>, keys: set<string>)
    ensures Without(rows, keys) != rows <==> HoldsNamed(rows, keys)
  {
    hide Without;
    WithoutMembers(rows, keys);
    if Without(rows, keys) != rows {
      SomethingWithout(rows, keys);
    }
  }

  lemma StillHeld(s: Log, keys: set<string>, listed: seq<string>, timed: set<string>, now: int, end: ForgetEnd)
    ensures forall r :: Held(Flushed(s), r) && !Named(r, keys) ==> Held(Forgotten(s, keys, listed, timed, now, end), r)
  {
    hide IsRewritten, Left, Cut, Without, Flushed;
    var s1 := Flushed(s);
    var t := Forgotten(s, keys, listed, timed, now, end);
    WithoutMembers(s1.wal, keys);
    forall r | InShard(s1, r) && !Named(r, keys)
      ensures InShard(t, r)
    {
      var n :| n in s1.shards && r in s1.shards[n].rows;
      WithoutMembers(s1.shards[n].rows, keys);
      assert n in t.shards && r in t.shards[n].rows;
    }
  }

  /** A crash between a copy and its rename leaves the table's turns in a partial file; after
      the restart a forget that is shown every shard answers success with the turn on disk. */
  lemma AForgetThatPassesOver()
    ensures var rec := Rec(1, "q", false, Some("k"), None);
            var before := [Record(rec), Rotate("a", 0, CrashCopying(1)), Restart];
            var after := before + [Forget({"k"}, [], {}, 5, Forgot)];
            && AllListed(Run(before), {"k"}, [])
            && OnDisk(Run(after), Row(1, 0, 0, rec)) && Named(Row(1, 0, 0, rec), {"k"})
  {
    var rec := Rec(1, "q", false, Some("k"), None);
    var row, forget := Row(1, 0, 0, rec), Forget({"k"}, [], {}, 5, Forgot);
    var before := [Record(rec), Rotate("a", 0, CrashCopying(1)), Restart];
    var s := CrashedRun(rec);
    assert (before + [forget])[..3] == before;
    hide Run;
    var t := Forgotten(s, {"k"}, [], {}, 5, Forgot);
    assert "a" in t.partials && row in t.partials["a"];
    RunSnoc(before, forget);
  }

  /** The log after a crash between copying one turn and sealing it, and a restart. */
  lemma CrashedRun(rec: Rec) returns (s: Log)
    ensures s == Run([Record(rec), Rotate("a", 0, CrashCopying(1)), Restart])
    ensures s.wal == [Row(1, 0, 0, rec)] && s.shards == map[] && s.partials == map["a" := [Row(1, 0, 0, rec)]]
  {
    var a, b := Record(rec), Rotate("a", 0, CrashCopying(1));
    assert [a, b][..1] == [a] && [a][..0] == [];
    var s1 := Next(FIRST_LOG, a);
    assert Run([a]) == s1;
    assert NewRows(s1) == [Row(1, 0, 0, rec)];
    var s2 := Next(s1, b);
    assert Run([a, b]) == s2;
    RunThree(a, b, Restart);
    s := Next(s2, Restart);
  }

  lemma RunSnoc(steps: seq<Step>, step: Step)
    ensures Run(steps + [step]) == Next(Run(steps), step)
  {
    assert (steps + [step])[..|steps|] == steps;
  }

  /** Two rotations under one name keep the second's turns only. */
  lemma ARotationThatOverwrites(rec: Rec, other: Rec)
    ensures var steps := [Record(rec), Rotate("a", 0, Rotated(None, {}, {})), Record(other), Rotate("a", 0, Rotated(None, {}, {}))];
            !Held(Run(steps), Row(1, 0, 0, rec)) && Held(Run(steps), Row(2, 0, 1, other))
  {
    var s := SealedRun(rec);
    var a, b, c := Record(rec), Rotate("a", 0, Rotated(None, {}, {})), Record(other);
    var steps := [a, b, c, b];
    assert steps[..3] == [a, b, c];
    RunThree(a, b, c);
    var s1 := Next(s, c);
    var row := Row(2, 0, 1, other);
    assert NewRows(s1) == [row];
    var t := Next(s1, b);
    assert t.shards.Keys == {"a"} && t.shards["a"].rows == [row] && t.wal == [];
  }

  /** A turn of key "k" sealed in a shard that the forget was not shown stays, though the
      forget answers success. */
  lemma AForgetThatMisses()
    ensures var rec := Rec(1, "q", false, Some("k"), None);
            var steps := [Record(rec), Rotate("a", 0, Rotated(None, {}, {})), Forget({"k"}, [], {}, 5, Forgot)];
            Held(Run(steps), Row(1, 0, 0, rec)) && Named(Row(1, 0, 0, rec), {"k"})
  {
    var rec := Rec(1, "q", false, Some("k"), None);
    var s := SealedRun(rec);
    RunThree(Record(rec), Rotate("a", 0, Rotated(None, {}, {})), Forget({"k"}, [], {}, 5, Forgot));
    var t := Forgotten(s, {"k"}, [], {}, 5, Forgot);
    assert "a" in t.shards && t.shards["a"] == s.shards["a"];
    assert Row(1, 0, 0, rec) in t.shards["a"].rows;
  }

  /** Shown it but not its time, the forget makes the shard as young as itself. */
  lemma AForgetThatRejuvenates()
    ensures var rec := Rec(1, "q", false, Some("k"), None);
            var before := [Record(rec), Rotate("a", 0, Rotated(None, {}, {}))];
            var after := before + [Forget({"k"}, ["a"], {}, 5, Forgot)];
            && "a" in Run(before).shards && Run(before).shards["a"].sealedAt == 0
            && "a" in Run(after).shards && Run(after).shards["a"].sealedAt == 5
  {
    var rec := Rec(1, "q", false, Some("k"), None);
    var before := [Record(rec), Rotate("a", 0, Rotated(None, {}, {}))];
    var s := SealedRun(rec);
    var after := before + [Forget({"k"}, ["a"], {}, 5, Forgot)];
    assert after[..2] == before;
    assert Run(after) == Forgotten(s, {"k"}, ["a"], {}, 5, Forgot);
    var row := Row(1, 0, 0, rec);
    assert s.shards["a"].rows == [row] && [row][..0] == [];
    assert Without([row], {"k"}) == [];
  }

  /** The log after one turn was logged and sealed at time 0. */
  lemma SealedRun(rec: Rec) returns (s: Log)
    ensures s == Run([Record(rec), Rotate("a", 0, Rotated(None, {}, {}))])
    ensures s.wal == [] && s.buf == [] && s.shards == map["a" := Shard([Row(1, 0, 0, rec)], 0)]
    ensures s.nextId == 2 && s.life == 0 && s.turns == 1
  {
    var a, b := Record(rec), Rotate("a", 0, Rotated(None, {}, {}));
    assert [a, b][..1] == [a] && [a][..0] == [];
    var s1 := Next(FIRST_LOG, a);
    assert Run([a]) == s1;
    assert NewRows(s1) == [Row(1, 0, 0, rec)];
    s := Next(s1, b);
    assert s.shards.Keys == {"a"} && s.shards["a"] == Shard([Row(1, 0, 0, rec)], 0);
  }

  lemma RunThree(a: Step, b: Step, c: Step)
    ensures Run([a, b, c]) == Next(Run([a, b]), c)
  {
    assert [a, b, c][..2] == [a, b];
  }

  lemma {:induction false} SomethingWithout(rows: seq<Row>, keys: set<string>)
    requires Without(rows, keys) != rows
    ensures exists r :: r in rows && Named(r, keys)
  {
    var n := |rows| - 1;
    if Without(rows[..n], keys) != rows[..n] {
      SomethingWithout(rows[..n], keys);
      var r :| r in rows[..n] && Named(r, keys);
      assert r in rows;
    } else {
      assert rows[..n] + [rows[n]] == rows;
      assert rows[n] in rows;
    }
  }

  // ---------------------------------------------------------------------
  // The worker's own state
  // ---------------------------------------------------------------------

  function NamedCount(rows: seq<Row>, keys: set<string>): nat {
    if rows == [] then 0
    else NamedCount(rows[..|rows| - 1], keys) + if Named(rows[|rows| - 1], keys) then 1 else 0
  }

  lemma {:induction false} CountIsWithout(rows: seq<Row>, keys: set<string>)
    ensures |Without(rows, keys)| + NamedCount(rows, keys) == |rows|
    ensures NamedCount(rows, keys) == 0 ==> Without(rows, keys) == rows
  {
    if rows != [] {
      var n := |rows| - 1;
      CountIsWithout(rows[..n], keys);
      assert rows[..n] + [rows[n]] == rows;
    }
  }

  function CountListed(shards: map<string, Shard>, keys: set<string>, listed: seq<string>): nat
    requires forall i :: 0 <= i < |listed| ==> listed[i] in shards
  {
    if listed == [] then 0
    else
      var n := |listed| - 1;
      CountListed(shards, keys, listed[..n]) + NamedCount(shards[listed[n]].rows, keys)
  }

  lemma RewrittenSnoc(s: Log, keys: set<string>, listed: seq<string>, n: string, timed: set<string>, now: int)
    requires n in s.shards && n !in listed
    ensures var (before, after) := (Rewritten(s, keys, listed, timed, now), Rewritten(s, keys, listed + [n], timed, now));
            && n in before.shards && before.shards[n] == s.shards[n]
            && after == before.(shards := after.shards, partials := after.partials)
            && after.shards == before.shards[n := ShardWithout(s.shards[n], keys, n in timed, now)]
            && after.partials ==
               if Without(s.shards[n].rows, keys) == s.shards[n].rows then before.partials else before.partials - {n}
  {
    hide ShardWithout, Without;
    assert forall m :: m in listed + [n] <==> m in listed || m == n;
  }

  lemma RewrittenNone(s: Log, keys: set<string>, timed: set<string>, now: int)
    ensures Rewritten(s, keys, [], timed, now) == s
  {
    var t := Rewritten(s, keys, [], timed, now);
    assert t.shards == s.shards && t.partials == s.partials;
  }

  class Worker {
    var buf: seq<Entry>
    var nextId: nat
    var wal: seq<Row>
    var shards: map<string, Shard>
    var partials: map<string, seq<Row>>
    /** Bookkeeping of the model: the process life and the number of turns logged. */
    var life: nat
    var turns: nat

    ghost function View(): Log
      reads this
    {
      Log(buf, nextId, life, turns, wal, shards, partials)
    }

    /** A fresh start over what the disk holds. */
    constructor Open(before: Log)
      ensures View() == Restarted(before)
    {
      buf, nextId, wal := [], MaxId(before.wal) + 1, before.wal;
      shards, partials := before.shards, before.partials;
      life, turns := before.life + 1, before.turns;
    }

    method Push(rec: Rec)
      modifies this
      ensures View() == Next(old(View()), Record(rec))
    {
      buf := buf + [Entry(turns, rec)];
      turns := turns + 1;
    }

    /** Inserts the buffered records in one transaction. */
    method Flush()
      modifies this
      ensures View() == Flushed(old(View()))
    {
      var records := buf;
      buf := [];
      var inserted := [];
      for i := 0 to |records|
        invariant nextId == old(nextId) + i
        invariant View() == old(View()).(buf := [], nextId := old(nextId) + i)
        invariant inserted == NewRows(old(View()))[..i]
      {
        inserted := inserted + [Row(nextId, life, records[i].turn, records[i].rec)];
        nextId := nextId + 1;
      }
      wal := wal + inserted;
    }

    /** `remove_partial_shards`, as far as the filesystem lets it. */
    method RemovePartials(left: set<string>)
      modifies this`partials
      ensures partials == Left(old(partials), left)
    {
      var names := partials.Keys;
      while names != {}
        invariant names <= old(partials).Keys
        invariant partials == map n | n in old(partials) && (n in left || n in names) :: old(partials)[n]
        decreases |names|
      {
        var n :| n in names;
        names := names - {n};
        if n !in left {
          partials := partials - {n};
        }
      }
    }

    method Prune(cutoff: Option<int>, entries: seq<string>, stuck: set<string>, left: set<string>)
      requires forall n :: n in entries <==> n in shards
      modifies this`shards, this`partials
      ensures View() == Pruned(old(View()), cutoff, stuck, left)
    {
      hide Left;
      RemovePartials(left);
      if cutoff == None {
        assert Pruned(old(View()), cutoff, stuck, left).shards == shards;
        return;
      }
      ghost var s := old(View());
      for i := 0 to |entries|
        invariant shards == map n | n in s.shards && (!Expired(s, cutoff, n) || n in stuck || n !in entries[..i]) :: s.shards[n]
        invariant partials == Left(s.partials, left)
      {
        var n := entries[i];
        if n in shards && shards[n].sealedAt < cutoff.value && n !in stuck {
          shards := shards - {n};
        }
        assert forall m :: m in entries[..i + 1] <==> m in entries[..i] || m == n;
      }
      assert entries[..|entries|] == entries;
    }

    /** Flushes, copies the table to a partial file and renames it to a shard, empties the
        table, and prunes, as far as `end` lets it. */
    method Rotate(name: string, now: int, end: RotateEnd, entries: seq<string>)
      requires forall n :: n in entries <==> n in shards || (n == name && (wal != [] || buf != []))
      modifies this
      ensures View() == RotatedTo(old(View()), name, now, end)
    {
      hide Left, Cut;
      Flush();
      if |wal| > 0 {
        if end.CopyFails? || end.CrashCopying? {
          partials := partials[name := Cut(wal, end.written)];
          if end.CopyFails? {
            RemovePartials(end.left);
          }
          return;
        }
        ghost var was := partials;
        partials := partials[name := wal];
        shards, partials := shards[name := Shard(wal, now)], partials - {name};
        assert partials == was - {name};
      } else if end.CopyFails? || end.CrashCopying? {
        return;
      }
      if end == NotEmptied { return; }
      wal := [];
      if end == NotPruned { return; }
      Prune(end.cutoff, entries, end.stuck, end.left);
    }

    /** Rewrites a shard without the keyed turns, if it holds any. */
    method ForgetShard(n: string, keys: set<string>, timed: bool, now: int) returns (held: nat)
      requires n in shards
      modifies this`shards, this`partials
      ensures shards == old(shards)[n := ShardWithout(old(shards)[n], keys, timed, now)]
      ensures partials ==
              if Without(old(shards)[n].rows, keys) == old(shards)[n].rows then old(partials) else old(partials) - {n}
      ensures held == NamedCount(old(shards)[n].rows, keys)
    {
      var shard := shards[n];
      held := NamedCount(shard.rows, keys);
      CountIsWithout(shard.rows, keys);
      if held > 0 {
        var kept := Without(shard.rows, keys);
        partials := partials[n := kept];
        shards, partials := shards[n := Shard(kept, if timed then shard.sealedAt else now)], partials - {n};
        assert partials == old(partials) - {n};
      }
    }

    /** Rewrites each listed shard that holds a keyed turn, and counts those turns. */
    method RewriteListed(keys: set<string>, listed: seq<string>, timed: set<string>, now: int) returns (held: nat)
      requires forall i :: 0 <= i < |listed| ==> listed[i] in shards
      requires forall i, j :: 0 <= i < j < |listed| ==> listed[i] != listed[j]
      modifies this`shards, this`partials
      ensures View() == Rewritten(old(View()), keys, listed, timed, now)
      ensures held == CountListed(old(shards), keys, listed)
    {
      hide ShardWithout, NamedCount, Without, Rewritten;
      ghost var s := View();
      held := 0;
      RewrittenNone(s, keys, timed, now);
      for i := 0 to |listed|
        invariant View() == Rewritten(s, keys, listed[..i], timed, now)
        invariant shards.Keys == s.shards.Keys
        invariant held == CountListed(s.shards, keys, listed[..i])
      {
        RewrittenSnoc(s, keys, listed[..i], listed[i], timed, now);
        assert listed[..i] + [listed[i]] == listed[..i + 1] && listed[..i + 1][..i] == listed[..i];
        var more := ForgetShard(listed[i], keys, listed[i] in timed, now);
        held := held + more;
      }
      assert listed[..|listed|] == listed;
    }

    /** Deletes the keyed turns from the table and rewrites each listed shard that holds any,
        as far as `end` lets it. */
    method Forget(keys: set<string>, listed: seq<string>, timed: set<string>, now: int, end: ForgetEnd) returns (forgotten: nat)
      requires forall i :: 0 <= i < |listed| ==> listed[i] in shards
      requires forall i, j :: 0 <= i < j < |listed| ==> listed[i] != listed[j]
      modifies this
      ensures View() == Forgotten(old(View()), keys, listed, timed, now, end)
      ensures forgotten == NamedCount(Flushed(old(View())).wal, keys) + CountListed(old(shards), keys, listed)
    {
      hide NamedCount, Without, Rewritten, Left, Cut, CountListed;
      Flush();
      forgotten := NamedCount(wal, keys);
      wal := Without(wal, keys);
      var held := RewriteListed(keys, listed, timed, now);
      forgotten := forgotten + held;
      if end != Forgot {
        if end.at in shards {
          partials := partials[end.at := Cut(Without(shards[end.at].rows, keys), end.written)];
        }
        if end.ForgetFails? {
          RemovePartials(end.left);
        }
      }
    }

    /** Every row of the table and of every shard. */
    method AllRows() returns (rows: seq<Row>)
      ensures forall r :: r in rows <==> Held(View(), r)
    {
      rows := wal;
      var left := shards.Keys;
      while left != {}
        invariant left <= shards.Keys
        invariant forall r :: r in rows <==> r in wal || exists n :: n in shards && n !in left && r in shards[n].rows
        decreases |left|
      {
        var n :| n in left;
        ghost var before, was := left, rows;
        left := left - {n};
        rows := rows + shards[n].rows;
        forall r
          ensures r in rows <==> r in wal || exists m :: m in shards && m !in left && r in shards[m].rows
        {
          if r in shards[n].rows { assert n in shards && n !in left; }
          if m :| m in shards && m !in before && r in shards[m].rows { assert m !in left; }
        }
      }
    }

    /** Picks one row of each id, time and request among those the filter takes, and then
        those whose tags match. Whether there are shards was looked up before. */
    method Export(hadShards: bool, wanted: Rec -> bool, tagged: Rec -> bool) returns (out: seq<Row>)
      ensures IsExport(Seen(hadShards, View()), wanted, tagged, out)
    {
      hide IsPick, Seen;
      var picked := Pick(hadShards, wanted);
      out := [];
      for i := 0 to |picked|
        invariant out == Tagged(picked[..i], tagged)
      {
        assert picked[..i + 1][..i] == picked[..i];
        if tagged(picked[i].rec) {
          out := out + [picked[i]];
        }
      }
      assert picked[..|picked|] == picked;
    }

    method Pick(hadShards: bool, wanted: Rec -> bool) returns (out: seq<Row>)
      ensures IsPick(Seen(hadShards, View()), wanted, out)
    {
      hide SameKey;
      var rows := wal;
      if hadShards {
        rows := AllRows();
      }
      ghost var s := Seen(hadShards, View());
      SeenRows(hadShards, View(), rows);
      hide Held, Seen;
      out := [];
      for i := 0 to |rows|
        invariant forall k :: 0 <= k < |out| ==> Exportable(s, wanted, out[k])
        invariant KeysDiffer(out)
        invariant forall k :: 0 <= k < i && Exportable(s, wanted, rows[k]) ==> InOut(out, rows[k])
      {
        var r := rows[i];
        if !r.rec.isError && wanted(r.rec) && !InOut(out, r) {
          assert r in rows;
          OneMore(out, r);
          out := out + [r];
        }
      }
      forall r | Exportable(s, wanted, r)
        ensures exists i :: 0 <= i < |out| && SameKey(out[i], r)
      {
        assert r in rows;
        var k :| 0 <= k < |rows| && rows[k] == r;
        assert InOut(out, rows[k]);
      }
    }
  }

  lemma SeenRows(hadShards: bool, s: Log, rows: seq<Row>)
    requires if hadShards then forall r :: r in rows <==> Held(s, r) else rows == s.wal
    ensures forall r :: r in rows <==> Held(Seen(hadShards, s), r)
  {
  }

  /** A row of a new key joins those picked. */
  lemma OneMore(out: seq<Row>, r: Row)
    requires KeysDiffer(out) && !InOut(out, r)
    ensures KeysDiffer(out + [r])
    ensures forall q :: InOut(out, q) ==> InOut(out + [r], q)
    ensures InOut(out + [r], r)
  {
    var more := out + [r];
    assert SameKey(more[|out|], r);
    forall q | InOut(out, q)
      ensures InOut(more, q)
    {
      var i :| 0 <= i < |out| && SameKey(out[i], q);
      assert SameKey(more[i], q);
    }
  }

  predicate InOut(out: seq<Row>, r: Row) {
    exists i :: 0 <= i < |out| && SameKey(out[i], r)
  }
}
