/**
 What the request log holds after each operation (yb-reqlog/src/lib.rs), said in files,
 times, ids and fields alone.
 */
module LogContents {
  import opened Prelude
  import opened RequestLog

  // ---------------------------------------------------------------------
  // Flush, rotation and retention
  // ---------------------------------------------------------------------

  /** The table with the buffer's records behind it, under the next ids. */
  ghost predicate IsTable(s: Log, rows: seq<Row>) {
    && |rows| == |s.wal| + |s.buf|
    && (forall i :: 0 <= i < |s.wal| ==> rows[i] == s.wal[i])
    && (forall i :: 0 <= i < |s.buf| ==> rows[|s.wal| + i] == Row(s.nextId + i, s.life, s.buf[i].turn, s.buf[i].rec))
  }

  lemma TableIs(s: Log, rows: seq<Row>)
    requires IsTable(s, rows)
    ensures Flushed(s) == s.(buf := [], nextId := s.nextId + |s.buf|, wal := rows)
  {
    assert s.wal + NewRows(s) == rows;
  }

  /** A rotation that goes through leaves no shard sealed before its cutoff but those the
      filesystem will not give up, and every other one as it was; the buffer and the table are
      in the new shard, which is as old as the rotation. */
  lemma RetainedIff(s: Log, name: string, now: int, t: int, stuck: set<string>, left: set<string>, rows: seq<Row>, n: string)
    requires IsTable(s, rows)
    ensures var after := RotatedTo(s, name, now, Rotated(Some(t), stuck, left));
            && after.wal == [] && after.buf == []
            && (n in after.shards ==> after.shards[n].sealedAt >= t || n in stuck)
            && (n == name && rows != [] ==> (n in after.shards <==> now >= t || n in stuck))
            && (n == name && rows != [] && n in after.shards ==> after.shards[n] == Shard(rows, now))
            && (n != name || rows == [] ==>
                  (n in after.shards <==> n in s.shards && (s.shards[n].sealedAt >= t || n in stuck)))
            && ((n != name || rows == []) && n in after.shards ==> after.shards[n] == s.shards[n])
  {
    TableIs(s, rows);
    hide Flushed, Left;
  }

  /** Without a cutoff none goes. */
  lemma AllRetained(s: Log, name: string, now: int, stuck: set<string>, left: set<string>, rows: seq<Row>)
    requires IsTable(s, rows)
    ensures var after := RotatedTo(s, name, now, Rotated(None, stuck, left));
            && after.wal == [] && after.buf == []
            && after.shards == if rows == [] then s.shards else s.shards[name := Shard(rows, now)]
  {
    TableIs(s, rows);
    hide Flushed, Left;
  }

  /** As much of the rows as had been written. */
  ghost predicate IsCopied(rows: seq<Row>, written: nat, copy: seq<Row>) {
    && |copy| == (if written < |rows| then written else |rows|)
    && forall i :: 0 <= i < |copy| ==> copy[i] == rows[i]
  }

  /** A rotation that stops while it copies leaves the table and the shards as they were, and in
      place of a partial file of its name the rows it had copied, but for the partial files a
      failure could still remove. */
  lemma StoppedCopying(s: Log, name: string, now: int, written: nat, left: set<string>, rows: seq<Row>, n: string)
    requires IsTable(s, rows)
    ensures var (crashed, failed) := (RotatedTo(s, name, now, CrashCopying(written)), RotatedTo(s, name, now, CopyFails(written, left)));
            && crashed.wal == failed.wal == rows && crashed.shards == failed.shards == s.shards
            && (rows == [] ==> crashed.partials == failed.partials == s.partials)
            && (rows != [] ==>
                  && name in crashed.partials && IsCopied(rows, written, crashed.partials[name])
                  && (n != name ==> (n in crashed.partials <==> n in s.partials))
                  && (n != name && n in s.partials ==> crashed.partials[n] == s.partials[n])
                  && (n in failed.partials <==> n in crashed.partials && n in left)
                  && (n in failed.partials ==> failed.partials[n] == crashed.partials[n]))
  {
    TableIs(s, rows);
    hide Flushed;
  }

  /** One that stops later has sealed the shard, and emptied the table unless it stopped before that. */
  lemma StoppedSealed(s: Log, name: string, now: int, rows: seq<Row>)
    requires IsTable(s, rows)
    ensures var (full, empty) := (RotatedTo(s, name, now, NotEmptied), RotatedTo(s, name, now, NotPruned));
            && full.wal == rows && empty.wal == [] && full.buf == empty.buf == []
            && full.shards == empty.shards == (if rows == [] then s.shards else s.shards[name := Shard(rows, now)])
            && full.partials == empty.partials == if rows == [] then s.partials else s.partials - {name}
  {
    TableIs(s, rows);
    hide Flushed;
  }

  /** The partial files left after a rotation that goes through. */
  lemma PartialsLeft(s: Log, name: string, now: int, cutoff: Option<int>, stuck: set<string>, left: set<string>,
                     rows: seq<Row>, n: string)
    requires IsTable(s, rows)
    ensures var after := RotatedTo(s, name, now, Rotated(cutoff, stuck, left));
            && (n in after.partials <==> n in s.partials && n in left && (n != name || rows == []))
            && (n in after.partials ==> after.partials[n] == s.partials[n])
  {
    TableIs(s, rows);
    hide Flushed;
  }

  /** A shard sealed at 0 is gone, and one sealed at 10 is there, after the second of two
      rotations, which cuts off at 5. */
  lemma AShardThatExpires(rec: Rec, other: Rec)
    ensures var steps := [Record(rec), Rotate("a", 0, Rotated(None, {}, {})), Record(other), Rotate("b", 10, Rotated(Some(5), {}, {}))];
            Run(steps).shards == map["b" := Shard([Row(2, 0, 1, other)], 10)]
  {
    SecondRotation(rec, other, 5);
  }

  /** With a cutoff at 0 both are there: the first is just young enough. */
  lemma AShardThatIsKept(rec: Rec, other: Rec)
    ensures var steps := [Record(rec), Rotate("a", 0, Rotated(None, {}, {})), Record(other), Rotate("b", 10, Rotated(Some(0), {}, {}))];
            Run(steps).shards == map["a" := Shard([Row(1, 0, 0, rec)], 0), "b" := Shard([Row(2, 0, 1, other)], 10)]
  {
    SecondRotation(rec, other, 0);
  }

  lemma SecondRotation(rec: Rec, other: Rec, t: int)
    requires 0 <= t <= 10
    ensures var steps := [Record(rec), Rotate("a", 0, Rotated(None, {}, {})), Record(other), Rotate("b", 10, Rotated(Some(t), {}, {}))];
            Run(steps).shards ==
            if t > 0 then map["b" := Shard([Row(2, 0, 1, other)], 10)]
            else map["a" := Shard([Row(1, 0, 0, rec)], 0), "b" := Shard([Row(2, 0, 1, other)], 10)]
  {
    var a, b, c := Record(rec), Rotate("a", 0, Rotated(None, {}, {})), Record(other);
    var d := Rotate("b", 10, Rotated(Some(t), {}, {}));
    var s := SealedRun(rec);
    RunThree(a, b, c);
    RunSnoc([a, b, c], d);
    assert [a, b, c] + [d] == [a, b, c, d];
    hide Run, Flushed;
    var s1 := Next(s, c);
    var rows, after := [Row(2, 0, 1, other)], Next(s1, d);
    forall n ensures n in after.shards <==> n == "b" || (n == "a" && t <= 0)
    {
      RetainedIff(s1, "b", 10, t, {}, {}, rows, n);
    }
    RetainedIff(s1, "b", 10, t, {}, {}, rows, "a");
    RetainedIff(s1, "b", 10, t, {}, {}, rows, "b");
  }

  // ---------------------------------------------------------------------
  // Forget
  // ---------------------------------------------------------------------

  predicate Keyed(r: Row, keys: set<string>) {
    exists k :: k in keys && r.rec.key == Some(k)
  }

  /** The rows in their order, but for those of the keys. */
  ghost predicate IsWithout(rows: seq<Row>, keys: set<string>, kept: seq<Row>) {
    if rows == [] then kept == []
    else if Keyed(rows[0], keys) then IsWithout(rows[1..], keys, kept)
    else kept != [] && kept[0] == rows[0] && IsWithout(rows[1..], keys, kept[1..])
  }

  lemma {:induction false} WithoutSnoc(rows: seq<Row>, keys: set<string>, kept: seq<Row>, r: Row)
    requires IsWithout(rows, keys, kept)
    ensures IsWithout(rows + [r], keys, if Keyed(r, keys) then kept else kept + [r])
  {
    if rows != [] {
      assert (rows + [r])[1..] == rows[1..] + [r];
      if Keyed(rows[0], keys) {
        WithoutSnoc(rows[1..], keys, kept, r);
      } else {
        WithoutSnoc(rows[1..], keys, kept[1..], r);
        assert (kept + [r])[1..] == kept[1..] + [r];
      }
    }
  }

  lemma {:induction false} WithoutIs(rows: seq<Row>, keys: set<string>)
    ensures IsWithout(rows, keys, Without(rows, keys))
    decreases |rows|
  {
    if rows != [] {
      var n := |rows| - 1;
      WithoutIs(rows[..n], keys);
      WithoutSnoc(rows[..n], keys, Without(rows[..n], keys), rows[n]);
      assert rows[..n] + [rows[n]] == rows;
      assert Without(rows[..n], keys) + [] == Without(rows[..n], keys);
    }
  }

  /** A forget takes the keyed turns out of the table and of every listed shard, and leaves the
      others where they were; a shard it had to rewrite is as young as the forget if its time
      could not be read, and every other one keeps its time. */
  lemma ForgottenIs(s: Log, keys: set<string>, listed: seq<string>, timed: set<string>, now: int, rows: seq<Row>, n: string)
    requires IsTable(s, rows)
    ensures var after := Forgotten(s, keys, listed, timed, now, Forgot);
            && IsWithout(rows, keys, after.wal) && after.buf == []
            && (n in after.shards <==> n in s.shards)
            && (n in s.shards && n !in listed ==> after.shards[n] == s.shards[n])
            && (n in s.shards && n in listed ==>
                  && IsWithout(s.shards[n].rows, keys, after.shards[n].rows)
                  && after.shards[n].sealedAt ==
                     if n !in timed && after.shards[n].rows != s.shards[n].rows then now else s.shards[n].sealedAt)
  {
    TableIs(s, rows);
    hide Flushed, IsWithout;
    WithoutIs(rows, keys);
    if n in s.shards {
      WithoutIs(s.shards[n].rows, keys);
    }
  }

  function RowCount(shards: map<string, Shard>, names: seq<string>): nat
    requires forall i :: 0 <= i < |names| ==> names[i] in shards
  {
    if names == [] then 0
    else RowCount(shards, names[..|names| - 1]) + |shards[names[|names| - 1]].rows|
  }

  lemma {:induction false} ShardsShrink(s: Log, keys: set<string>, listed: seq<string>, timed: set<string>, now: int, all: seq<string>)
    requires forall i :: 0 <= i < |listed| ==> listed[i] in s.shards && listed[i] in all
    ensures var t := Rewritten(s, keys, all, timed, now);
            (forall i :: 0 <= i < |listed| ==> listed[i] in t.shards)
            && RowCount(s.shards, listed) == RowCount(t.shards, listed) + CountListed(s.shards, keys, listed)
    decreases |listed|
  {
    hide Without, NamedCount;
    if listed != [] {
      var n := |listed| - 1;
      ShardsShrink(s, keys, listed[..n], timed, now, all);
      CountIsWithout(s.shards[listed[n]].rows, keys);
    }
  }

  /** The number a forget answers is how many rows it took out of the table and the shards. */
  lemma ForgottenCount(s: Log, keys: set<string>, listed: seq<string>, timed: set<string>, now: int)
    requires forall i :: 0 <= i < |listed| ==> listed[i] in s.shards
    ensures var (t, forgotten) := (Forgotten(s, keys, listed, timed, now, Forgot),
                                   NamedCount(Flushed(s).wal, keys) + CountListed(s.shards, keys, listed));
            (forall i :: 0 <= i < |listed| ==> listed[i] in t.shards)
            && |s.wal| + |s.buf| + RowCount(s.shards, listed) == |t.wal| + RowCount(t.shards, listed) + forgotten
  {
    hide Without, NamedCount, RowCount;
    var s1 := Flushed(s);
    CountIsWithout(s1.wal, keys);
    ShardsShrink(s1.(wal := Without(s1.wal, keys)), keys, listed, timed, now, listed);
  }

  /** A forget that stops has done as much to the table and to the shards shown to it, and leaves
      the copy it was writing in place of a partial file of that name, but for the partial files
      a failure could still remove. */
  lemma StoppedForgetting(
    s: Log, keys: set<string>, listed: seq<string>, timed: set<string>, now: int, at: string, written: nat, left: set<string>, n: string)
    ensures var done := Forgotten(s, keys, listed, timed, now, Forgot);
            var crashed := Forgotten(s, keys, listed, timed, now, CrashForgetting(at, written));
            var failed := Forgotten(s, keys, listed, timed, now, ForgetFails(at, written, left));
            && crashed.wal == failed.wal == done.wal && crashed.shards == failed.shards == done.shards
            && (n != at || at !in done.shards ==>
                  (n in crashed.partials <==> n in done.partials) && (n in done.partials ==> crashed.partials[n] == done.partials[n]))
            && (at in done.shards ==> at in crashed.partials)
            && (at in done.shards ==>
                  exists kept :: IsWithout(done.shards[at].rows, keys, kept) && IsCopied(kept, written, crashed.partials[at]))
            && (n in failed.partials <==> n in crashed.partials && n in left)
            && (n in failed.partials ==> failed.partials[n] == crashed.partials[n])
  {
    hide Flushed, Without, Rewritten, IsWithout;
    var done := Forgotten(s, keys, listed, timed, now, Forgot);
    if at in done.shards {
      WithoutIs(done.shards[at].rows, keys);
    }
  }

  /** A rewritten shard replaces a partial file of its name; the other partial files stay. */
  lemma ForgottenPartials(s: Log, keys: set<string>, listed: seq<string>, timed: set<string>, now: int, n: string)
    ensures var after := Forgotten(s, keys, listed, timed, now, Forgot);
            && (n in after.partials <==>
                  n in s.partials && !(n in listed && n in s.shards && after.shards[n].rows != s.shards[n].rows))
            && (n in after.partials ==> after.partials[n] == s.partials[n])
  {
    hide NewRows, Without;
  }

  // ---------------------------------------------------------------------
  // Export
  // ---------------------------------------------------------------------

  /** What an export may take: a stored turn without an error that the filter takes. */
  ghost predicate Takes(s: Log, wanted: Rec -> bool, r: Row) {
    && (r in s.wal || exists n :: n in s.shards && r in s.shards[n].rows)
    && r.rec.isError == false && wanted(r.rec)
  }

  ghost predicate SameTurnKey(r: Row, q: Row) {
    (r.id, r.rec.ts, r.rec.requestId) == (q.id, q.rec.ts, q.rec.requestId)
  }

  /** Every exported row may be taken and has its tags; no two share id, time and request; and
      of all that may be taken and share them, one was picked, and is there if it has its tags. */
  lemma ExportHolds(s: Log, wanted: Rec -> bool, tagged: Rec -> bool, out: seq<Row>)
    requires IsExport(s, wanted, tagged, out)
    ensures forall k :: 0 <= k < |out| ==> Takes(s, wanted, out[k]) && tagged(out[k].rec)
    ensures forall j, k :: 0 <= j < k < |out| ==> !SameTurnKey(out[j], out[k])
    ensures forall r :: Takes(s, wanted, r) ==>
              exists q :: Takes(s, wanted, q) && SameTurnKey(q, r) && (tagged(q.rec) ==> q in out)
  {
    hide Tagged, Takes, SameTurnKey;
    var picked :| IsPick(s, wanted, picked) && out == Tagged(picked, tagged);
    TaggedMembers(picked, tagged);
    TaggedKeysDiffer(picked, tagged);
    TakesIff(s, wanted);
    forall k | 0 <= k < |out|
      ensures Takes(s, wanted, out[k]) && tagged(out[k].rec)
    {
      assert out[k] in out;
    }
    forall j, k | 0 <= j < k < |out|
      ensures !SameTurnKey(out[j], out[k])
    {
      KeyIff(out[j], out[k]);
    }
    forall r | Takes(s, wanted, r)
      ensures exists q :: Takes(s, wanted, q) && SameTurnKey(q, r) && (tagged(q.rec) ==> q in out)
    {
      var i :| 0 <= i < |picked| && SameKey(picked[i], r);
      KeyIff(picked[i], r);
      assert picked[i] in picked;
      assert Takes(s, wanted, picked[i]);
    }
  }

  lemma KeyIff(r: Row, q: Row)
    ensures SameKey(r, q) <==> SameTurnKey(r, q)
  {
  }

  lemma TakesIff(s: Log, wanted: Rec -> bool)
    ensures forall r :: Takes(s, wanted, r) <==> Exportable(s, wanted, r)
  {
  }

  // ---------------------------------------------------------------------
  // A fresh start
  // ---------------------------------------------------------------------

  /** A fresh start forgets the buffer, keeps what is on disk, and numbers on from the table's largest id. */
  lemma StartIs(s: Log)
    ensures var t := Restarted(s);
            && t.buf == [] && t.wal == s.wal && t.shards == s.shards && t.partials == s.partials
            && (forall r :: r in s.wal ==> r.id < t.nextId)
            && (if s.wal == [] then t.nextId == 1 else exists r :: r in s.wal && t.nextId == r.id + 1)
  {
    MaxIdIs(s.wal);
  }

  lemma {:induction false} MaxIdIs(rows: seq<Row>)
    ensures forall r :: r in rows ==> r.id <= MaxId(rows)
    ensures if rows == [] then MaxId(rows) == 0 else exists r :: r in rows && r.id == MaxId(rows)
    decreases |rows|
  {
    if rows != [] {
      var n := |rows| - 1;
      MaxIdIs(rows[..n]);
      assert rows[n] in rows;
      assert forall r :: r in rows <==> r in rows[..n] || r == rows[n];
    }
  }
}
