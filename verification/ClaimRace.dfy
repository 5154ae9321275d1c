/**
 The claim race on one shard: an optimistic claim is a write of the descriptor followed by a
 read-back. Any number of workers interleave their writes and read-backs.
 */
module ClaimRace {
  import opened Prelude
  import opened Jobs
  import opened ShardProtocol

  /** Worker `a.w` stores its claim of shard `id`. */
  predicate ClaimWrite(g: Global, a: Action, id: ShardId) {
    a.Work? && LocalOf(g, a.w).Claim? && IdOf(LocalOf(g, a.w).read) == id && a.step.Write? && a.step.io == Good
  }

  /** Worker `a.w` reads its claim of shard `id` back. */
  predicate ReadBack(g: Global, a: Action, id: ShardId) {
    a.Work? && LocalOf(g, a.w).Confirm? && IdOf(LocalOf(g, a.w).shard) == id && a.step == Read(true)
  }

  ghost predicate Race(g: Global, acts: seq<Action>, id: ShardId) {
    forall i :: 0 <= i < |acts| ==>
      ClaimWrite(Exec(g, acts[..i]), acts[i], id) || ReadBack(Exec(g, acts[..i]), acts[i], id)
  }

  /** The worker whose claim write is the latest so far. */
  function LastWriter(g: Global, acts: seq<Action>, id: ShardId): Option<string> {
    if acts == [] then None
    else
      var n := |acts| - 1;
      if ClaimWrite(Exec(g, acts[..n]), acts[n], id) then Some(acts[n].w) else LastWriter(g, acts[..n], id)
  }

  /** Worker `w` wrote a claim in this race. */
  ghost predicate Wrote(g: Global, acts: seq<Action>, id: ShardId, w: string) {
    exists i :: 0 <= i < |acts| && ClaimWrite(Exec(g, acts[..i]), acts[i], id) && acts[i].w == w
  }

  ghost predicate DidReadBack(g: Global, acts: seq<Action>, id: ShardId, w: string) {
    exists i :: 0 <= i < |acts| && ReadBack(Exec(g, acts[..i]), acts[i], id) && acts[i].w == w
  }

  /** The worker's read-back let it keep the shard. */
  predicate Confirmed(l: Local, id: ShardId) {
    l.FetchJob? && IdOf(l.shard) == id
  }

  predicate Waiting(l: Local, id: ShardId) {
    l.Confirm? && IdOf(l.shard) == id
  }

  lemma RacePrefix(g: Global, acts: seq<Action>, id: ShardId, n: nat)
    requires Race(g, acts, id) && n <= |acts|
    ensures Race(g, acts[..n], id)
  {
    forall i | 0 <= i < n
      ensures
        ClaimWrite(Exec(g, acts[..n][..i]), acts[..n][i], id) || ReadBack(Exec(g, acts[..n][..i]), acts[..n][i], id)
    {
      assert acts[..n][..i] == acts[..i];
    }
  }

  lemma WriteSteps(g: Global, a: Action, id: ShardId)
    requires ClaimWrite(g, a, id)
    ensures
      var g' := Next(g, a);
      id in g'.store.shards && g'.store.shards[id].owner == Some(a.w) && Waiting(LocalOf(g', a.w), id)
      && forall v :: v != a.w ==> LocalOf(g', v) == LocalOf(g, v)
  {
  }

  /** A successful read-back keeps the shard exactly if storage still names the reader. */
  lemma ReadBackSteps(g: Global, a: Action, id: ShardId)
    requires ReadBack(g, a, id)
    ensures
      var g' := Next(g, a);
      g'.store == g.store && (forall v :: v != a.w ==> LocalOf(g', v) == LocalOf(g, v))
      && !Waiting(LocalOf(g', a.w), id)
      && (id in g.store.shards ==> (Confirmed(LocalOf(g', a.w), id) <==> g.store.shards[id].owner == Some(a.w)))
  {
  }

  /** During a race storage always names the latest writer. */
  lemma {:induction false} LatestWriterOwns(g: Global, acts: seq<Action>, id: ShardId)
    requires Race(g, acts, id) && LastWriter(g, acts, id).Some?
    ensures
      var g' := Exec(g, acts);
      id in g'.store.shards && g'.store.shards[id].owner == LastWriter(g, acts, id)
  {
    hide Next, ClaimWrite, ReadBack;
    var n := |acts| - 1;
    var past := Exec(g, acts[..n]);
    assert ClaimWrite(past, acts[n], id) || ReadBack(past, acts[n], id);
    if ClaimWrite(past, acts[n], id) {
      WriteSteps(past, acts[n], id);
    } else {
      RacePrefix(g, acts, id, n);
      LatestWriterOwns(g, acts[..n], id);
      ReadBackSteps(past, acts[n], id);
    }
  }

  /**
   A worker whose read-back succeeds keeps the shard if and only if its write was the latest at
   that moment. In particular the last writer always confirms.
   */
  lemma ConfirmsIffLatest(g: Global, acts: seq<Action>, id: ShardId, a: Action)
    requires Race(g, acts, id) && LastWriter(g, acts, id).Some? && ReadBack(Exec(g, acts), a, id)
    ensures Confirmed(LocalOf(Exec(g, acts + [a]), a.w), id) <==> LastWriter(g, acts, id) == Some(a.w)
  {
    LatestWriterOwns(g, acts, id);
    ExecSnoc(g, acts, a);
    ReadBackSteps(Exec(g, acts), a, id);
  }

  /** Every action is a claim write of this shard. */
  ghost predicate AllWrites(g: Global, writes: seq<Action>, id: ShardId) {
    forall i :: 0 <= i < |writes| ==> ClaimWrite(Exec(g, writes[..i]), writes[i], id)
  }

  lemma LastWrite(g: Global, writes: seq<Action>, id: ShardId)
    requires AllWrites(g, writes, id) && writes != []
    ensures
      var n := |writes| - 1;
      AllWrites(g, writes[..n], id) && ClaimWrite(Exec(g, writes[..n]), writes[n], id)
      && Exec(g, writes) == Next(Exec(g, writes[..n]), writes[n])
  {
    hide Next, ClaimWrite;
    var n := |writes| - 1;
    forall i | 0 <= i < n
      ensures ClaimWrite(Exec(g, writes[..n][..i]), writes[..n][i], id)
    {
      assert writes[..n][..i] == writes[..i];
    }
  }

  lemma WroteEarlier(g: Global, writes: seq<Action>, id: ShardId, w: string)
    requires Wrote(g, writes, id, w) && writes[|writes| - 1].Work? && writes[|writes| - 1].w != w
    ensures Wrote(g, writes[..|writes| - 1], id, w)
  {
    hide Next;
    var n := |writes| - 1;
    var i :| 0 <= i < |writes| && ClaimWrite(Exec(g, writes[..i]), writes[i], id) && writes[i].w == w;
    assert writes[..n][..i] == writes[..i] && writes[..n][i] == writes[i];
  }

  /** A writer that has not read back yet is waiting to. */
  lemma {:induction false} WritersWait(g: Global, writes: seq<Action>, id: ShardId, w: string)
    requires AllWrites(g, writes, id) && Wrote(g, writes, id, w)
    ensures Waiting(LocalOf(Exec(g, writes), w), id)
  {
    hide Next, Waiting, Exec, AllWrites;
    var n := |writes| - 1;
    LastWrite(g, writes, id);
    WriteSteps(Exec(g, writes[..n]), writes[n], id);
    if writes[n].w != w {
      WroteEarlier(g, writes, id, w);
      hide Wrote;
      WritersWait(g, writes[..n], id, w);
    }
  }

  lemma ReadBackEarlier(g: Global, backs: seq<Action>, id: ShardId, w: string)
    requires DidReadBack(g, backs, id, w) && backs[|backs| - 1].Work? && backs[|backs| - 1].w != w
    ensures DidReadBack(g, backs[..|backs| - 1], id, w)
  {
    hide Next;
    var n := |backs| - 1;
    var i :| 0 <= i < |backs| && ReadBack(Exec(g, backs[..i]), backs[i], id) && backs[i].w == w;
    assert backs[..n][..i] == backs[..i] && backs[..n][i] == backs[i];
  }

  /** After some read-backs: a writer still waits, or it is the latest writer and kept the shard, or it let go. */
  lemma {:induction false} ReadBacksSettle(g: Global, backs: seq<Action>, id: ShardId, last: string, w: string)
    requires id in g.store.shards && g.store.shards[id].owner == Some(last)
    requires forall i :: 0 <= i < |backs| ==> ReadBack(Exec(g, backs[..i]), backs[i], id)
    requires Waiting(LocalOf(g, w), id)
    ensures Exec(g, backs).store == g.store
    ensures Waiting(LocalOf(Exec(g, backs), w), id) || (Confirmed(LocalOf(Exec(g, backs), w), id) <==> w == last)
    ensures DidReadBack(g, backs, id, w) ==> !Waiting(LocalOf(Exec(g, backs), w), id)
  {
    hide Next, Confirmed, Waiting;
    if backs != [] {
      var n := |backs| - 1;
      forall i | 0 <= i < n
        ensures ReadBack(Exec(g, backs[..n][..i]), backs[..n][i], id)
      {
        assert backs[..n][..i] == backs[..i];
      }
      ReadBacksSettle(g, backs[..n], id, last, w);
      ReadBackSteps(Exec(g, backs[..n]), backs[n], id);
      if DidReadBack(g, backs, id, w) && backs[n].w != w {
        ReadBackEarlier(g, backs, id, w);
      }
    }
  }

  /**
   When all claim writes precede all read-backs and every writer reads back, exactly one worker
   ends up with the shard: the one that wrote last.
   */
  lemma ExactlyOneConfirms(g: Global, writes: seq<Action>, backs: seq<Action>, id: ShardId)
    requires writes != [] && AllWrites(g, writes, id)
    requires forall i :: 0 <= i < |backs| ==> ReadBack(Exec(Exec(g, writes), backs[..i]), backs[i], id)
    requires forall w :: Wrote(g, writes, id, w) ==> DidReadBack(Exec(g, writes), backs, id, w)
    ensures
      var last := writes[|writes| - 1].w;
      Wrote(g, writes, id, last)
      && forall w :: Wrote(g, writes, id, w) ==>
        (Confirmed(LocalOf(Exec(Exec(g, writes), backs), w), id) <==> w == last)
  {
    hide Next;
    var n := |writes| - 1;
    var last := writes[n].w;
    var mid := Exec(g, writes);
    LastWrite(g, writes, id);
    WriteSteps(Exec(g, writes[..n]), writes[n], id);
    forall w | Wrote(g, writes, id, w)
      ensures Confirmed(LocalOf(Exec(mid, backs), w), id) <==> w == last
    {
      WritersWait(g, writes, id, w);
      ReadBacksSettle(mid, backs, id, last, w);
    }
  }

  /** A race of two: both write, both read back, and only the later writer keeps the shard. */
  lemma TwoWorkersRace(g: Global, read: Shard, now: int, lease: int)
    requires LocalOf(g, "a") == Claim(read, {}, now) && LocalOf(g, "b") == Claim(read, {}, now)
    ensures
      var acts :=
        [Work("a", Write(Good, 0, lease)), Work("b", Write(Good, 0, lease)), Work("a", Read(true)),
         Work("b", Read(true))];
      Race(g, acts, IdOf(read))
      && Confirmed(LocalOf(Exec(g, acts), "b"), IdOf(read)) && !Confirmed(LocalOf(Exec(g, acts), "a"), IdOf(read))
  {
    var id := IdOf(read);
    var a1, a2 := Work("a", Write(Good, 0, lease)), Work("b", Write(Good, 0, lease));
    var a3, a4 := Work("a", Read(true)), Work("b", Read(true));
    TwoStates(g, read, now, lease);
    assert ClaimWrite(g, a1, id);
    hide Exec, Next, ClaimWrite, ReadBack, Confirmed, Race;
    assert [] + [a1] == [a1] && [a1] + [a2] == [a1, a2] && [a1, a2] + [a3] == [a1, a2, a3]
      && [a1, a2, a3] + [a4] == [a1, a2, a3, a4];
    RaceStep(g, [], a1, id);
    RaceStep(g, [a1], a2, id);
    RaceStep(g, [a1, a2], a3, id);
    RaceStep(g, [a1, a2, a3], a4, id);
  }

  /** One more action of the race. */
  lemma RaceStep(g: Global, acts: seq<Action>, a: Action, id: ShardId)
    ensures Exec(g, []) == g && Race(g, [], id)
    ensures Exec(g, acts + [a]) == Next(Exec(g, acts), a)
    ensures Race(g, acts, id) && (ClaimWrite(Exec(g, acts), a, id) || ReadBack(Exec(g, acts), a, id)) ==>
      Race(g, acts + [a], id)
  {
    ExecSnoc(g, acts, a);
    hide Next, ClaimWrite, ReadBack;
    var all := acts + [a];
    if Race(g, acts, id) && (ClaimWrite(Exec(g, acts), a, id) || ReadBack(Exec(g, acts), a, id)) {
      forall i | 0 <= i < |all|
        ensures ClaimWrite(Exec(g, all[..i]), all[i], id) || ReadBack(Exec(g, all[..i]), all[i], id)
      {
        if i < |acts| {
          assert all[..i] == acts[..i];
        } else {
          assert all[..i] == acts;
        }
      }
    }
  }

  lemma TwoStates(g: Global, read: Shard, now: int, lease: int)
    requires LocalOf(g, "a") == Claim(read, {}, now) && LocalOf(g, "b") == Claim(read, {}, now)
    ensures
      var id := IdOf(read);
      var a1, a2 := Work("a", Write(Good, 0, lease)), Work("b", Write(Good, 0, lease));
    var a3, a4 := Work("a", Read(true)), Work("b", Read(true));
      var g1 := Next(g, a1);
      var g2 := Next(g1, a2);
      var g3 := Next(g2, a3);
      var g4 := Next(g3, a4);
      ClaimWrite(g1, a2, id) && ReadBack(g2, a3, id) && ReadBack(g3, a4, id)
      && Confirmed(LocalOf(g4, "b"), id) && !Confirmed(LocalOf(g4, "a"), id)
  {
    var g1 := Next(g, Work("a", Write(Good, 0, lease)));
    assert LocalOf(g1, "a") == Confirm(ShardProtocol.Claimed(read, "a", now, lease), {}, now)
      && LocalOf(g1, "b") == LocalOf(g, "b");
    var g2 := Next(g1, Work("b", Write(Good, 0, lease)));
    assert LocalOf(g2, "b") == Confirm(ShardProtocol.Claimed(read, "b", now, lease), {}, now)
      && LocalOf(g2, "a") == LocalOf(g1, "a");
    assert IdOf(read) in g2.store.shards && g2.store.shards[IdOf(read)].owner == Some("b");
    var g3 := Next(g2, Work("a", Read(true)));
    assert LocalOf(g3, "a") == Scan({}, now) && LocalOf(g3, "b") == LocalOf(g2, "b") && g3.store == g2.store;
  }
}
