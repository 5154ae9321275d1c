/**
 Staged analytics records (crates/papermake-registry/src/render_storage/s3_buffered.rs) and the
 interleaving of `store_render` with any number of concurrent `flush` calls. A record is named by
 its ticket, the number of `store_render` calls before it, so equal records are told apart. One
 action is one locked section of the buffer, one draw from the sequence counter, or one put.
 */
module RenderStaging {
  import opened Prelude

  /** A render record: dates are day numbers, `expiry` is unset for "keep forever". */
  datatype Record = Record(id: string, date: int, expiry: Option<int>, payload: string)

  datatype Kind = Raw | Expiry

  /** The key of a flushed object: its partition, the writing instance, and the draw that makes it unique. */
  datatype ObjKey = ObjKey(kind: Kind, date: int, instance: string, millis: int, seqNo: nat)

  /** Keep the newest `max` of what is staged. */
  function Capped<T>(buffer: seq<T>, max: nat): seq<T> {
    if |buffer| > max then buffer[|buffer| - max..] else buffer
  }

  /** A flush under way: what it took, the partitions still to write, and the key it has drawn. */
  datatype Flight = Flight(batch: seq<nat>, raws: set<int>, expiries: set<int>, next: Option<ObjKey>)

  datatype Machine = Machine(
    instance: string, maxBuffered: nat,
    staged: seq<Record>, buffer: seq<nat>, flights: map<nat, Flight>, counter: nat,
    objects: map<ObjKey, seq<nat>>, dropped: set<nat>)

  datatype Action =
    | Stage(record: Record)
    | Take(flush: nat)
    | Draw(flush: nat, kind: Kind, date: int, millis: int)
    | Put(flush: nat, io: Io)
    | Finish(flush: nat)
    | Foreign(key: ObjKey)                       // another instance flushes

  function RawDates(staged: seq<Record>, batch: seq<nat>): set<int> {
    set t | t in batch && t < |staged| :: staged[t].date
  }

  function ExpiryDates(staged: seq<Record>, batch: seq<nat>): set<int> {
    set t | t in batch && t < |staged| && staged[t].expiry.Some? :: staged[t].expiry.value
  }

  /** The record belongs in objects of this kind and date. */
  predicate Belongs(r: Record, kind: Kind, date: int) {
    if kind == Raw then r.date == date else r.expiry == Some(date)
  }

  function OfDate(staged: seq<Record>, batch: seq<nat>, kind: Kind, date: int): seq<nat> {
    if batch == [] then []
    else
      var t := batch[|batch| - 1];
      OfDate(staged, batch[..|batch| - 1], kind, date)
      + if t < |staged| && Belongs(staged[t], kind, date) then [t] else []
  }

  lemma {:induction false} OfDateMembers(staged: seq<Record>, batch: seq<nat>, kind: Kind, date: int)
    ensures forall t :: t in OfDate(staged, batch, kind, date) <==>
      t in batch && t < |staged| && Belongs(staged[t], kind, date)
  {
    if batch != [] {
      OfDateMembers(staged, batch[..|batch| - 1], kind, date);
      assert batch == batch[..|batch| - 1] + [batch[|batch| - 1]];
    }
  }

  /** A put failed: the batch goes back in front of what was staged since, and the oldest may be dropped. */
  function Restage(m: Machine, f: nat): Machine
    requires f in m.flights
  {
    var all := m.flights[f].batch + m.buffer;
    var kept := Capped(all, m.maxBuffered);
    m.(buffer := kept, flights := m.flights - {f}, dropped := m.dropped + set i | 0 <= i < |all| - |kept| :: all[i])
  }

  function PutObject(m: Machine, f: nat, io: Io): Machine
    requires f in m.flights && m.flights[f].next.Some?
  {
    var fl := m.flights[f];
    var key := fl.next.value;
    var m' := if io == Lost then m else m.(objects := m.objects[key := OfDate(m.staged, fl.batch, key.kind, key.date)]);
    if io != Good then Restage(m', f)
    else if key.kind == Raw then m'.(flights := m.flights[f := fl.(raws := fl.raws - {key.date}, next := None)])
    else m'.(flights := m.flights[f := fl.(expiries := fl.expiries - {key.date}, next := None)])
  }

  function Next(m: Machine, a: Action): Machine {
    match a
    case Stage(record) => m.(staged := m.staged + [record], buffer := m.buffer + [|m.staged|])
    case Take(f) =>
      if f in m.flights || m.buffer == [] then m
      else m.(buffer := [],
              flights := m.flights[
                f := Flight(m.buffer, RawDates(m.staged, m.buffer), ExpiryDates(m.staged, m.buffer), None)])
    case Draw(f, kind, date, millis) =>
      if f !in m.flights || m.flights[f].next.Some? then m
      else
        var fl := m.flights[f];
        if (if kind == Raw then date in fl.raws else fl.raws == {} && date in fl.expiries) then
          m.(counter := m.counter + 1,
             flights := m.flights[f := fl.(next := Some(ObjKey(kind, date, m.instance, millis, m.counter)))])
        else m
    case Put(f, io) => if f in m.flights && m.flights[f].next.Some? then PutObject(m, f, io) else m
    case Finish(f) =>
      if f in m.flights && Finished(m.flights[f]) then m.(flights := m.flights - {f}) else m
    case Foreign(key) => if key.instance == m.instance then m else m.(objects := m.objects[key := []])
  }

  predicate Finished(fl: Flight) {
    fl.raws == {} && fl.expiries == {} && fl.next == None
  }

  function Exec(m: Machine, acts: seq<Action>): Machine {
    if acts == [] then m else Next(Exec(m, acts[..|acts| - 1]), acts[|acts| - 1])
  }

  function Initial(instance: string, maxBuffered: nat): Machine {
    Machine(instance, maxBuffered, [], [], map[], 0, map[], {})
  }

  // ----- where records are -----

  /** The record is in an object of its partition. */
  predicate InObject(m: Machine, t: nat, kind: Kind) {
    t < |m.staged| &&
    exists k :: k in m.objects && k.kind == kind && k.instance == m.instance && t in m.objects[k]
      && (if kind == Raw then k.date == m.staged[t].date else m.staged[t].expiry == Some(k.date))
  }

  predicate InFlight(m: Machine, t: nat) {
    exists f :: f in m.flights && t in m.flights[f].batch
  }

  predicate Located(m: Machine, t: nat) {
    t in m.buffer || InFlight(m, t) || InObject(m, t, Raw) || t in m.dropped
  }

  /** A flush has written every partition it no longer lists. */
  predicate FlightOk(m: Machine, fl: Flight) {
    (forall t :: t in fl.batch ==>
       t < |m.staged|
       && (m.staged[t].date in fl.raws || InObject(m, t, Raw))
       && (m.staged[t].expiry.Some? ==> m.staged[t].expiry.value in fl.expiries || InObject(m, t, Expiry)))
    && (fl.next.Some? ==>
          fl.next.value.instance == m.instance && fl.next.value.seqNo < m.counter && fl.next.value !in m.objects
          && (fl.next.value.kind == Raw ==> fl.next.value.date in fl.raws)
          && (fl.next.value.kind == Expiry ==> fl.next.value.date in fl.expiries))
  }

  /** Drawn keys are told apart by their draw. */
  predicate KeysApart(m: Machine) {
    forall f, f' ::
      f in m.flights && f' in m.flights && f != f' && m.flights[f].next.Some? && m.flights[f'].next.Some? ==>
        m.flights[f].next.value.seqNo != m.flights[f'].next.value.seqNo
  }

  predicate Tickets(m: Machine) {
    (forall t :: t in m.buffer ==> t < |m.staged|)
    && forall k :: k in m.objects && k.instance == m.instance ==> k.seqNo < m.counter
  }

  predicate Inv(m: Machine) {
    Tickets(m) && KeysApart(m)
    && (forall f :: f in m.flights ==> FlightOk(m, m.flights[f]))
    && (forall t: nat :: t < |m.staged| ==> Located(m, t))
  }

  /** Objects of this instance are never overwritten. */
  predicate KeepsObjects(m: Machine, m': Machine) {
    m'.instance == m.instance && m.staged <= m'.staged
    && forall k :: k in m.objects && k.instance == m.instance ==> k in m'.objects && m'.objects[k] == m.objects[k]
  }

  lemma InObjectStays(m: Machine, m': Machine, t: nat, kind: Kind)
    requires KeepsObjects(m, m') && InObject(m, t, kind)
    ensures InObject(m', t, kind)
  {
    var k :| k in m.objects && k.kind == kind && k.instance == m.instance && t in m.objects[k]
      && (if kind == Raw then k.date == m.staged[t].date else m.staged[t].expiry == Some(k.date));
    assert k in m'.objects && t in m'.objects[k];
  }

  /** A flush that was not touched is as good as before. */
  lemma FlightStays(m: Machine, m': Machine, fl: Flight)
    requires KeepsObjects(m, m') && FlightOk(m, fl) && m.counter <= m'.counter
    requires fl.next.Some? ==> fl.next.value !in m'.objects
    ensures FlightOk(m', fl)
  {
    forall t | t in fl.batch
      ensures m'.staged[t].date in fl.raws || InObject(m', t, Raw)
      ensures m'.staged[t].expiry.Some? ==> m'.staged[t].expiry.value in fl.expiries || InObject(m', t, Expiry)
    {
      if InObject(m, t, Raw) { InObjectStays(m, m', t, Raw); }
      if InObject(m, t, Expiry) { InObjectStays(m, m', t, Expiry); }
    }
  }

  lemma StageOk(m: Machine, record: Record)
    requires Inv(m)
    ensures Inv(Next(m, Stage(record))) && KeepsObjects(m, Next(m, Stage(record)))
  {
    var m' := Next(m, Stage(record));
    forall f | f in m'.flights
      ensures FlightOk(m', m'.flights[f])
    {
      FlightStays(m, m', m.flights[f]);
    }
    forall t: nat | t < |m'.staged|
      ensures Located(m', t)
    {
      if t < |m.staged| {
        if InObject(m, t, Raw) { InObjectStays(m, m', t, Raw); }
        assert Located(m, t);
        if InFlight(m, t) {
          var f :| f in m.flights && t in m.flights[f].batch;
          assert f in m'.flights && t in m'.flights[f].batch;
        }
      } else {
        assert m'.buffer[|m.buffer|] == t;
      }
    }
  }

  lemma TakeOk(m: Machine, f: nat)
    requires Inv(m)
    ensures Inv(Next(m, Take(f))) && KeepsObjects(m, Next(m, Take(f)))
  {
    var m' := Next(m, Take(f));
    if f !in m.flights && m.buffer != [] {
      forall g | g in m'.flights
        ensures FlightOk(m', m'.flights[g])
      {
        if g != f { FlightStays(m, m', m.flights[g]); }
      }
      forall t | t in m.buffer
        ensures Located(m', t)
      {
        assert t in m'.flights[f].batch;
      }
      OthersLocated(m, m', f);
    }
  }

  /** Records outside the buffer and flush `f` are where they were. */
  lemma OthersLocated(m: Machine, m': Machine, f: nat)
    requires KeepsObjects(m, m') && m.dropped <= m'.dropped && |m'.staged| == |m.staged|
    requires forall t: nat :: t < |m.staged| ==> Located(m, t)
    requires forall g :: g in m.flights && g != f ==> g in m'.flights && m'.flights[g].batch == m.flights[g].batch
    requires
      forall t :: (t in m.buffer || (f in m.flights && t in m.flights[f].batch)) && t < |m.staged| ==> Located(m', t)
    ensures forall t: nat :: t < |m'.staged| ==> Located(m', t)
  {
    forall t: nat | t < |m'.staged|
      ensures Located(m', t)
    {
      assert Located(m, t);
      if InObject(m, t, Raw) { InObjectStays(m, m', t, Raw); }
      if InFlight(m, t) {
        var g :| g in m.flights && t in m.flights[g].batch;
        if g != f {
          assert g in m'.flights && t in m'.flights[g].batch;
        }
      }
    }
  }

  lemma DrawOk(m: Machine, f: nat, kind: Kind, date: int, millis: int)
    requires Inv(m)
    ensures Inv(Next(m, Draw(f, kind, date, millis))) && KeepsObjects(m, Next(m, Draw(f, kind, date, millis)))
  {
    var m' := Next(m, Draw(f, kind, date, millis));
    if m' != m {
      forall g | g in m'.flights
        ensures FlightOk(m', m'.flights[g])
      {
        if g != f {
          FlightStays(m, m', m.flights[g]);
        } else {
          FlightStays(m, m', m.flights[f].(next := None));
        }
      }
      forall t | t in m.flights[f].batch
        ensures Located(m', t)
      {
        assert t in m'.flights[f].batch;
      }
      forall t | t in m.buffer
        ensures Located(m', t)
      {
      }
      OthersLocated(m, m', f);
    }
  }

  /** A put under a drawn key overwrites nothing and files the batch's records of its partition. */
  lemma ObjectWritten(m: Machine, f: nat)
    requires Inv(m) && f in m.flights && m.flights[f].next.Some?
    ensures
      var fl := m.flights[f];
      var key := fl.next.value;
      var m' := m.(objects := m.objects[key := OfDate(m.staged, fl.batch, key.kind, key.date)]);
      KeepsObjects(m, m') && Tickets(m')
      && forall t :: t in fl.batch && Belongs(m.staged[t], key.kind, key.date) ==>
           InObject(m', t, key.kind)
  {
    var fl := m.flights[f];
    var key := fl.next.value;
    assert FlightOk(m, fl);
    OfDateMembers(m.staged, fl.batch, key.kind, key.date);
    var m' := m.(objects := m.objects[key := OfDate(m.staged, fl.batch, key.kind, key.date)]);
    forall t | t in fl.batch && Belongs(m.staged[t], key.kind, key.date)
      ensures InObject(m', t, key.kind)
    {
      assert key in m'.objects && t in m'.objects[key];
    }
  }

  lemma PutGoodOk(m: Machine, f: nat)
    requires Inv(m) && f in m.flights && m.flights[f].next.Some?
    ensures Inv(PutObject(m, f, Good)) && KeepsObjects(m, PutObject(m, f, Good))
  {
    var fl := m.flights[f];
    var key := fl.next.value;
    var m1 := m.(objects := m.objects[key := OfDate(m.staged, fl.batch, key.kind, key.date)]);
    var m' := PutObject(m, f, Good);
    assert FlightOk(m, fl);
    ObjectWritten(m, f);
    forall g | g in m'.flights
      ensures FlightOk(m', m'.flights[g])
    {
      if g != f {
        assert FlightOk(m, m.flights[g]);
        FlightStays(m, m', m.flights[g]);
      } else {
        FlightPartition(m, m1, fl);
        FlightStays(m1, m', m'.flights[f]);
      }
    }
    forall t | t in fl.batch
      ensures Located(m', t)
    {
      assert t in m'.flights[f].batch;
    }
    OthersLocated(m, m', f);
  }

  /** After a put, its partition is done. */
  lemma FlightPartition(m: Machine, m1: Machine, fl: Flight)
    requires KeepsObjects(m, m1) && m1.staged == m.staged && m1.counter == m.counter && FlightOk(m, fl) && fl.next.Some?
    requires
      var key := fl.next.value;
      forall t :: t in fl.batch && Belongs(m.staged[t], key.kind, key.date) ==>
        InObject(m1, t, key.kind)
    ensures
      var key := fl.next.value;
      FlightOk(m1, if key.kind == Raw then fl.(raws := fl.raws - {key.date}, next := None)
                   else fl.(expiries := fl.expiries - {key.date}, next := None))
  {
    forall t | t in fl.batch
      ensures InObject(m, t, Raw) ==> InObject(m1, t, Raw)
      ensures InObject(m, t, Expiry) ==> InObject(m1, t, Expiry)
    {
      if InObject(m, t, Raw) { InObjectStays(m, m1, t, Raw); }
      if InObject(m, t, Expiry) { InObjectStays(m, m1, t, Expiry); }
    }
  }

  /** Putting a batch back keeps every record of it in the buffer, or counts it as dropped. */
  lemma RestageOk(m: Machine, m1: Machine, f: nat)
    requires Inv(m) && f in m.flights && KeepsObjects(m, m1) && Tickets(m1)
    requires m1 == m.(objects := m1.objects)
    requires forall g :: g in m.flights && g != f && m.flights[g].next.Some? ==> m.flights[g].next.value !in m1.objects
    ensures Inv(Restage(m1, f)) && KeepsObjects(m, Restage(m1, f))
  {
    var m' := Restage(m1, f);
    var all := m.flights[f].batch + m.buffer;
    assert FlightOk(m, m.flights[f]);
    forall t | t in m'.buffer
      ensures t < |m.staged|
    {
      assert t in all;
    }
    forall g | g in m'.flights
      ensures FlightOk(m', m'.flights[g])
    {
      assert FlightOk(m, m.flights[g]);
      FlightStays(m, m', m.flights[g]);
    }
    forall t | t in m.buffer || t in m.flights[f].batch
      ensures Located(m', t)
    {
      assert t in all;
      var i :| 0 <= i < |all| && all[i] == t;
      if i >= |all| - |m'.buffer| {
        assert m'.buffer[i - (|all| - |m'.buffer|)] == t;
      }
    }
    OthersLocated(m, m', f);
  }

  lemma PutOk(m: Machine, f: nat, io: Io)
    requires Inv(m)
    ensures Inv(Next(m, Put(f, io))) && KeepsObjects(m, Next(m, Put(f, io)))
  {
    if f in m.flights && m.flights[f].next.Some? {
      if io == Good {
        PutGoodOk(m, f);
      } else if io == Lost {
        RestageOk(m, m, f);
      } else {
        var fl := m.flights[f];
        var key := fl.next.value;
        ObjectWritten(m, f);
        var m1 := m.(objects := m.objects[key := OfDate(m.staged, fl.batch, key.kind, key.date)]);
        RestageOk(m, m1, f);
      }
    }
  }

  lemma FinishOk(m: Machine, f: nat)
    requires Inv(m)
    ensures Inv(Next(m, Finish(f))) && KeepsObjects(m, Next(m, Finish(f)))
  {
    if f in m.flights && Finished(m.flights[f]) {
      var m' := Next(m, Finish(f));
      assert FlightOk(m, m.flights[f]);
      forall g | g in m'.flights
        ensures FlightOk(m', m'.flights[g])
      {
        FlightStays(m, m', m.flights[g]);
      }
      forall t | t in m.flights[f].batch
        ensures Located(m', t)
      {
        InObjectStays(m, m', t, Raw);
      }
      OthersLocated(m, m', f);
    }
  }

  lemma ForeignOk(m: Machine, key: ObjKey)
    requires Inv(m)
    ensures Inv(Next(m, Foreign(key))) && KeepsObjects(m, Next(m, Foreign(key)))
  {
    var m' := Next(m, Foreign(key));
    if key.instance != m.instance {
      forall g | g in m'.flights
        ensures FlightOk(m', m'.flights[g])
      {
        assert FlightOk(m, m.flights[g]);
        FlightStays(m, m', m.flights[g]);
      }
      forall t: nat | t < |m.staged|
        ensures Located(m', t)
      {
        assert Located(m, t);
        if InObject(m, t, Raw) { InObjectStays(m, m', t, Raw); }
        if InFlight(m, t) {
          var f :| f in m.flights && t in m.flights[f].batch;
          assert f in m'.flights && t in m'.flights[f].batch;
        }
      }
    }
  }

  lemma NextOk(m: Machine, a: Action)
    requires Inv(m)
    ensures Inv(Next(m, a)) && KeepsObjects(m, Next(m, a))
  {
    hide Inv, Next, KeepsObjects;
    match a
    case Stage(record) => StageOk(m, record);
    case Take(f) => TakeOk(m, f);
    case Draw(f, kind, date, millis) => DrawOk(m, f, kind, date, millis);
    case Put(f, io) => PutOk(m, f, io);
    case Finish(f) => FinishOk(m, f);
    case Foreign(key) => ForeignOk(m, key);
  }

  lemma {:induction false} ExecOk(m: Machine, acts: seq<Action>)
    requires Inv(m)
    ensures Inv(Exec(m, acts))
  {
    if acts != [] {
      ExecOk(m, acts[..|acts| - 1]);
      NextOk(Exec(m, acts[..|acts| - 1]), acts[|acts| - 1]);
    }
  }

  /**
   No record is lost by flushing: in every reachable state each record ever staged is in the
   buffer, held by a flush, in a raw object of its render date, or was dropped over the cap.
   */
  lemma NoRecordLost(instance: string, maxBuffered: nat, acts: seq<Action>, t: nat)
    requires t < |Exec(Initial(instance, maxBuffered), acts).staged|
    ensures Located(Exec(Initial(instance, maxBuffered), acts), t)
  {
    ExecOk(Initial(instance, maxBuffered), acts);
  }

  /** A flush that finishes has filed every record it took, raw and under its expiry date. */
  lemma FinishedFlushIsDurable(instance: string, maxBuffered: nat, acts: seq<Action>, f: nat, t: nat)
    requires
      var m := Exec(Initial(instance, maxBuffered), acts);
      f in m.flights && Finished(m.flights[f]) && t in m.flights[f].batch
    ensures
      var m := Exec(Initial(instance, maxBuffered), acts);
      InObject(m, t, Raw) && (m.staged[t].expiry.Some? ==> InObject(m, t, Expiry))
  {
    ExecOk(Initial(instance, maxBuffered), acts);
    assert FlightOk(Exec(Initial(instance, maxBuffered), acts), Exec(Initial(instance, maxBuffered), acts).flights[f]);
  }

  lemma KeepsChain(a: Machine, b: Machine, c: Machine)
    requires KeepsObjects(a, b) && KeepsObjects(b, c)
    ensures KeepsObjects(a, c)
  {
  }

  /** No put ever overwrites an object: what this instance wrote stays as it was written. */
  lemma {:induction false} NothingOverwritten(instance: string, maxBuffered: nat, acts: seq<Action>, i: nat)
    requires i <= |acts|
    ensures KeepsObjects(Exec(Initial(instance, maxBuffered), acts[..i]), Exec(Initial(instance, maxBuffered), acts))
  {
    var m0 := Initial(instance, maxBuffered);
    if i == |acts| {
      assert acts[..i] == acts;
    } else {
      var n := |acts| - 1;
      NothingOverwritten(instance, maxBuffered, acts[..n], i);
      assert acts[..n][..i] == acts[..i];
      ExecOk(m0, acts[..n]);
      NextOk(Exec(m0, acts[..n]), acts[n]);
      KeepsChain(Exec(m0, acts[..i]), Exec(m0, acts[..n]), Exec(m0, acts));
    }
  }

  // ----- what may be dropped -----

  predicate Distinct(s: seq<nat>) {
    forall i, j :: 0 <= i < j < |s| ==> s[i] != s[j]
  }

  predicate Apart(a: seq<nat>, b: seq<nat>) {
    forall t :: t in a ==> t !in b
  }

  /** Every record waits in at most one place, once. */
  predicate WaitsOnce(m: Machine) {
    Distinct(m.buffer)
    && (forall t :: t in m.buffer ==> t < |m.staged|)
    && (forall f :: f in m.flights ==>
          Distinct(m.flights[f].batch) && Apart(m.flights[f].batch, m.buffer)
          && forall t :: t in m.flights[f].batch ==> t < |m.staged|)
    && (forall f, g :: f in m.flights && g in m.flights && f != g ==> Apart(m.flights[f].batch, m.flights[g].batch))
  }

  /** The records that a flush holds or that are staged for the next one. */
  function Waiting(m: Machine): set<nat> {
    (set t | t in m.buffer) + set f, t | f in m.flights && t in m.flights[f].batch :: t
  }

  /** A dropped record waits nowhere. */
  predicate DroppedGone(m: Machine) {
    forall t :: t in m.dropped ==> t < |m.staged| && t !in Waiting(m)
  }

  /** Distinct members of a set are at most as many as the set has. */
  lemma {:induction false} DistinctMembers(s: seq<nat>, all: set<nat>)
    requires Distinct(s) && forall t :: t in s ==> t in all
    ensures |s| <= |all|
  {
    if s != [] {
      var n := |s| - 1;
      assert s[n] in s;
      forall t | t in s[..n]
        ensures t in all - {s[n]}
      {
        assert t in s;
      }
      DistinctMembers(s[..n], all - {s[n]});
    }
  }

  /** This put fails with more records to put back than the cap allows. */
  predicate OverCap(m: Machine, a: Action) {
    a.Put? && a.io != Good && a.flush in m.flights && m.flights[a.flush].next.Some?
    && |m.flights[a.flush].batch| + |m.buffer| > m.maxBuffered
  }

  lemma WaitingMembers(m: Machine, f: nat, t: nat)
    requires t in m.buffer || (f in m.flights && t in m.flights[f].batch)
    ensures t in Waiting(m)
  {
  }

  /** A batch and what was staged since hold no record twice. */
  lemma BatchAndBuffer(m: Machine, f: nat)
    requires WaitsOnce(m) && f in m.flights
    ensures Distinct(m.flights[f].batch + m.buffer)
    ensures |m.flights[f].batch + m.buffer| <= |Waiting(m)|
  {
    hide Waiting;
    var batch := m.flights[f].batch;
    var all := batch + m.buffer;
    forall i, j | 0 <= i < j < |all|
      ensures all[i] != all[j]
    {
      if i < |batch| <= j {
        assert all[i] in batch && all[j] in m.buffer;
      }
    }
    forall t | t in all
      ensures t in Waiting(m)
    {
      WaitingMembers(m, f, t);
    }
    DistinctMembers(all, Waiting(m));
  }

  lemma RestageOnce(m: Machine, f: nat)
    requires WaitsOnce(m) && f in m.flights
    ensures WaitsOnce(Restage(m, f))
  {
    hide Waiting;
    BatchAndBuffer(m, f);
    var all := m.flights[f].batch + m.buffer;
    assert forall t :: t in Capped(all, m.maxBuffered) ==> t in all;
  }

  /** What a restage drops, it takes out of what waits. */
  lemma RestageDrops(m: Machine, f: nat)
    requires WaitsOnce(m) && DroppedGone(m) && f in m.flights
    ensures DroppedGone(Restage(m, f))
    ensures Restage(m, f).dropped != m.dropped <==> |m.flights[f].batch| + |m.buffer| > m.maxBuffered
  {
    var m' := Restage(m, f);
    var all := m.flights[f].batch + m.buffer;
    var n := |all| - |m'.buffer|;
    assert m'.buffer == all[n..];
    forall t | t in Waiting(m')
      ensures t in Waiting(m) && t !in m'.dropped
    {
      if t in m'.buffer {
        assert t in all;
        WaitingMembers(m, f, t);
        StaysOut(m, f, n, t);
      } else {
        var g :| g in m'.flights && t in m'.flights[g].batch;
        WaitingMembers(m, g, t);
        assert t !in all;
      }
    }
    forall i | 0 <= i < n
      ensures all[i] < |m.staged| && all[i] in Waiting(m)
    {
      assert all[i] in all;
      WaitingMembers(m, f, all[i]);
    }
    if n > 0 {
      assert all[0] in m'.dropped && all[0] !in m.dropped;
    }
  }

  /** A record kept by a restage is not among those dropped. */
  lemma StaysOut(m: Machine, f: nat, n: nat, t: nat)
    requires WaitsOnce(m) && f in m.flights && n <= |m.flights[f].batch + m.buffer|
    requires t in (m.flights[f].batch + m.buffer)[n..]
    ensures forall i :: 0 <= i < n ==> (m.flights[f].batch + m.buffer)[i] != t
  {
    var batch := m.flights[f].batch;
    var all := batch + m.buffer;
    var j :| n <= j < |all| && all[j] == t;
    forall i | 0 <= i < n
      ensures all[i] != t
    {
      if i < |batch| <= j {
        assert all[i] in batch && all[j] in m.buffer;
      }
    }
  }

  lemma NextWaitsOnce(m: Machine, a: Action)
    requires WaitsOnce(m)
    ensures WaitsOnce(Next(m, a))
    ensures OverCap(m, a) ==> |Waiting(m)| > m.maxBuffered
  {
    if a.Stage? {
      StageOnce(m, a.record);
      hide WaitsOnce;
    } else if a.Put? && a.flush in m.flights && m.flights[a.flush].next.Some? {
      PutOnce(m, a.flush, a.io);
      hide WaitsOnce, PutObject;
    }
  }

  lemma StageOnce(m: Machine, record: Record)
    requires WaitsOnce(m)
    ensures WaitsOnce(Next(m, Stage(record)))
  {
    var m' := Next(m, Stage(record));
    assert forall t :: t in m'.buffer ==> t in m.buffer || t == |m.staged|;
    forall i | 0 <= i < |m.buffer|
      ensures m.buffer[i] != |m.staged|
    {
      assert m.buffer[i] in m.buffer;
    }
  }

  lemma PutOnce(m: Machine, f: nat, io: Io)
    requires WaitsOnce(m) && f in m.flights && m.flights[f].next.Some?
    ensures WaitsOnce(PutObject(m, f, io))
    ensures |m.flights[f].batch + m.buffer| <= |Waiting(m)|
  {
    hide Restage, OfDate, Waiting;
    BatchAndBuffer(m, f);
    if io == Lost {
      RestageOnce(m, f);
    } else if io == Torn {
      var fl := m.flights[f];
      var key := fl.next.value;
      RestageOnce(m.(objects := m.objects[key := OfDate(m.staged, fl.batch, key.kind, key.date)]), f);
    }
  }

  /** A put drops records exactly when it fails with too many of them to put back. */
  lemma PutDrops(m: Machine, f: nat, io: Io)
    requires WaitsOnce(m) && DroppedGone(m) && f in m.flights && m.flights[f].next.Some?
    ensures DroppedGone(PutObject(m, f, io))
    ensures PutObject(m, f, io).dropped != m.dropped <==> OverCap(m, Put(f, io))
  {
    hide Restage, OfDate;
    var fl := m.flights[f];
    var key := fl.next.value;
    var m1 := m.(objects := m.objects[key := OfDate(m.staged, fl.batch, key.kind, key.date)]);
    assert Waiting(m1) == Waiting(m);
    RestageDrops(m, f);
    RestageDrops(m1, f);
    if io == Good {
      assert Waiting(PutObject(m, f, io)) <= Waiting(m);
    }
  }

  lemma NextDrops(m: Machine, a: Action)
    requires WaitsOnce(m) && DroppedGone(m)
    ensures DroppedGone(Next(m, a))
    ensures Next(m, a).dropped != m.dropped <==> OverCap(m, a)
  {
    if a.Put? && a.flush in m.flights && m.flights[a.flush].next.Some? {
      PutDrops(m, a.flush, a.io);
      hide WaitsOnce, PutObject, DroppedGone;
    } else {
      assert Waiting(Next(m, a)) <= Waiting(m) + {|m.staged|};
      if !a.Stage? {
        assert Waiting(Next(m, a)) <= Waiting(m);
      }
    }
  }

  lemma {:induction false} ExecWaits(instance: string, maxBuffered: nat, acts: seq<Action>)
    ensures
      var m := Exec(Initial(instance, maxBuffered), acts);
      WaitsOnce(m) && DroppedGone(m) && m.maxBuffered == maxBuffered
  {
    if acts != [] {
      var n := |acts| - 1;
      ExecWaits(instance, maxBuffered, acts[..n]);
      NextWaitsOnce(Exec(Initial(instance, maxBuffered), acts[..n]), acts[n]);
      NextDrops(Exec(Initial(instance, maxBuffered), acts[..n]), acts[n]);
      NextFrame(Exec(Initial(instance, maxBuffered), acts[..n]), acts[n]);
      hide Next, WaitsOnce, DroppedGone;
    }
  }

  lemma NextFrame(m: Machine, a: Action)
    ensures Next(m, a).maxBuffered == m.maxBuffered
  {
  }

  /**
   In every reachable state an action drops records exactly when it is a failing put whose batch,
   with what was staged since, exceeds the cap; then more records wait than the cap allows.
   */
  lemma DropsIff(instance: string, maxBuffered: nat, acts: seq<Action>, a: Action)
    ensures
      var m := Exec(Initial(instance, maxBuffered), acts);
      (Next(m, a).dropped != m.dropped <==> OverCap(m, a)) && (OverCap(m, a) ==> |Waiting(m)| > maxBuffered)
  {
    hide Exec, Next, WaitsOnce, DroppedGone, OverCap, Waiting;
    ExecWaits(instance, maxBuffered, acts);
    NextWaitsOnce(Exec(Initial(instance, maxBuffered), acts), a);
    NextDrops(Exec(Initial(instance, maxBuffered), acts), a);
  }

  /** At every point of the run the records that wait fit under the cap. */
  predicate WaitingFits(m: Machine, acts: seq<Action>, max: nat) {
    forall i :: 0 <= i < |acts| ==> |Waiting(Exec(m, acts[..i]))| <= max
  }

  /**
   While the records that wait fit under the cap, nothing is ever dropped, however flushes fail or
   overlap and however many records pass through.
   */
  lemma {:induction false} NothingDroppedUnderCap(instance: string, maxBuffered: nat, acts: seq<Action>)
    requires WaitingFits(Initial(instance, maxBuffered), acts, maxBuffered)
    ensures Exec(Initial(instance, maxBuffered), acts).dropped == {}
  {
    hide Next, Waiting, OverCap;
    if acts != [] {
      var n := |acts| - 1;
      forall i | 0 <= i < n
        ensures |Waiting(Exec(Initial(instance, maxBuffered), acts[..n][..i]))| <= maxBuffered
      {
        assert acts[..n][..i] == acts[..i];
      }
      NothingDroppedUnderCap(instance, maxBuffered, acts[..n]);
      DropsIff(instance, maxBuffered, acts[..n], acts[n]);
    }
  }

  // ----- raw objects before index objects -----

  /** An index entry is only written once its batch is in raw objects. */
  ghost predicate RawFirst(m: Machine) {
    (forall f :: f in m.flights && m.flights[f].next.Some? && m.flights[f].next.value.kind == Expiry ==>
       m.flights[f].raws == {})
    && forall t: nat :: InObject(m, t, Expiry) ==> InObject(m, t, Raw)
  }

  lemma RawStays(m: Machine, m': Machine)
    requires RawFirst(m) && KeepsObjects(m, m')
    requires forall t: nat :: InObject(m', t, Expiry) ==> InObject(m, t, Expiry)
    ensures forall t: nat :: InObject(m', t, Expiry) ==> InObject(m', t, Raw)
  {
    forall t: nat | InObject(m', t, Expiry)
      ensures InObject(m', t, Raw)
    {
      InObjectStays(m, m', t, Raw);
    }
  }

  /** Without a new object of this instance, nothing is filed anew. */
  lemma NothingFiled(m: Machine, m': Machine)
    requires m'.instance == m.instance && m.staged <= m'.staged && Tickets(m) && KeysWithin(m)
    requires forall k :: k in m'.objects && k.instance == m.instance ==> k in m.objects && m'.objects[k] == m.objects[k]
    ensures forall t: nat :: InObject(m', t, Expiry) ==> InObject(m, t, Expiry)
  {
    forall t: nat | InObject(m', t, Expiry)
      ensures InObject(m, t, Expiry)
    {
      var k :| k in m'.objects && k.kind == Expiry && k.instance == m'.instance && t in m'.objects[k]
        && m'.staged[t].expiry == Some(k.date);
      assert k in m.objects && t in m.objects[k];
    }
  }

  /** Objects of this instance hold staged records. */
  predicate KeysWithin(m: Machine) {
    forall k, t :: k in m.objects && k.instance == m.instance && t in m.objects[k] ==> t < |m.staged|
  }

  /** What a put files was all taken from the batch, whose raw objects are there if the key is an index key. */
  lemma PutRawFirst(m: Machine, f: nat, m': Machine)
    requires Inv(m) && RawFirst(m) && KeysWithin(m) && f in m.flights && m.flights[f].next.Some?
    requires
      var fl := m.flights[f];
      var key := fl.next.value;
      m' == m.(objects := m.objects[key := OfDate(m.staged, fl.batch, key.kind, key.date)])
    ensures KeysWithin(m') && forall t: nat :: InObject(m', t, Expiry) ==> InObject(m', t, Raw)
  {
    var fl := m.flights[f];
    var key := fl.next.value;
    OfDateMembers(m.staged, fl.batch, key.kind, key.date);
    ObjectWritten(m, f);
    assert FlightOk(m, fl);
    forall t: nat | InObject(m', t, Expiry)
      ensures InObject(m', t, Raw)
    {
      var k :| k in m'.objects && k.kind == Expiry && k.instance == m.instance && t in m'.objects[k]
        && m.staged[t].expiry == Some(k.date);
      if k == key {
        assert t in fl.batch && fl.raws == {};
        assert InObject(m, t, Raw);
      } else {
        assert k in m.objects && InObject(m, t, Expiry);
      }
      InObjectStays(m, m', t, Raw);
    }
  }

  /** The same objects, and no flush about to write the index that was not. */
  lemma SameObjects(m: Machine, m': Machine)
    requires RawFirst(m) && KeysWithin(m)
    requires m'.objects == m.objects && m'.staged == m.staged && m'.instance == m.instance
    requires forall f :: f in m'.flights && m'.flights[f].next.Some? && m'.flights[f].next.value.kind == Expiry ==>
      m'.flights[f].raws == {}
    ensures RawFirst(m') && KeysWithin(m')
  {
    forall t: nat | InObject(m', t, Expiry)
      ensures InObject(m', t, Raw)
    {
      assert InObject(m, t, Expiry);
    }
  }

  lemma NextRawFirst(m: Machine, a: Action)
    requires Inv(m) && RawFirst(m) && KeysWithin(m)
    ensures RawFirst(Next(m, a)) && KeysWithin(Next(m, a))
  {
    var m' := Next(m, a);
    match a
    case Stage(record) =>
      NextOk(m, a);
      NothingFiled(m, m');
      RawStays(m, m');
    case Foreign(key) =>
      NextOk(m, a);
      NothingFiled(m, m');
      RawStays(m, m');
    case Put(f, io) =>
      if f in m.flights && m.flights[f].next.Some? {
        PutKeepsRawFirst(m, f, io);
      }
    case _ => SameObjects(m, m');
  }

  lemma PutKeepsRawFirst(m: Machine, f: nat, io: Io)
    requires Inv(m) && RawFirst(m) && KeysWithin(m) && f in m.flights && m.flights[f].next.Some?
    ensures RawFirst(PutObject(m, f, io)) && KeysWithin(PutObject(m, f, io))
  {
    hide Inv, InObject, OfDate;
    var fl := m.flights[f];
    var key := fl.next.value;
    var m1 := m.(objects := m.objects[key := OfDate(m.staged, fl.batch, key.kind, key.date)]);
    PutRawFirst(m, f, m1);
    SameObjects(if io == Lost then m else m1, PutObject(m, f, io));
  }

  lemma {:induction false} ExecRawFirst(instance: string, maxBuffered: nat, acts: seq<Action>)
    ensures RawFirst(Exec(Initial(instance, maxBuffered), acts))
      && KeysWithin(Exec(Initial(instance, maxBuffered), acts))
  {
    hide Next;
    if acts != [] {
      var n := |acts| - 1;
      ExecRawFirst(instance, maxBuffered, acts[..n]);
      ExecOk(Initial(instance, maxBuffered), acts[..n]);
      NextRawFirst(Exec(Initial(instance, maxBuffered), acts[..n]), acts[n]);
      hide RawFirst, KeysWithin;
    }
  }

  /** Whatever fails and overlaps, a record that the expiry index names is in a raw object. */
  lemma IndexedIsFiled(instance: string, maxBuffered: nat, acts: seq<Action>, t: nat)
    requires InObject(Exec(Initial(instance, maxBuffered), acts), t, Expiry)
    ensures InObject(Exec(Initial(instance, maxBuffered), acts), t, Raw)
  {
    hide Exec, InObject;
    ExecRawFirst(instance, maxBuffered, acts);
  }

  // ----- which records are dropped -----

  /** No flush starts while another is under way. */
  predicate OneAtATime(m: Machine, acts: seq<Action>) {
    forall i :: 0 <= i < |acts| && acts[i].Take? ==> Exec(m, acts[..i]).flights == map[]
  }

  predicate Rising(s: seq<nat>) {
    forall i, j :: 0 <= i < j < |s| ==> s[i] < s[j]
  }

  /** These wait in order of staging, and what is gone is older. */
  predicate Queued(m: Machine, q: seq<nat>) {
    Rising(q) && (forall t :: t in q ==> t < |m.staged|) && forall d, t :: d in m.dropped && t in q ==> d < t
  }

  /** At most one flush is under way, and what it holds is older than what was staged since. */
  predicate InOrder(m: Machine) {
    (forall f, f' :: f in m.flights && f' in m.flights ==> f == f')
    && (forall f :: f in m.flights ==> Queued(m, m.flights[f].batch + m.buffer))
    && (m.flights == map[] ==> Queued(m, m.buffer))
    && (forall d :: d in m.dropped ==> d < |m.staged|)
  }

  lemma QueueGrows(m: Machine, m': Machine, q: seq<nat>)
    requires Queued(m, q) && |m'.staged| == |m.staged| + 1 && m'.dropped == m.dropped
    requires forall d :: d in m.dropped ==> d < |m.staged|
    ensures Queued(m', q + [|m.staged|])
  {
    var q' := q + [|m.staged|];
    assert forall i :: 0 <= i < |q| ==> q[i] in q;
    assert forall t :: t in q' ==> t in q || t == |m.staged|;
  }

  lemma StageInOrder(m: Machine, record: Record)
    requires InOrder(m)
    ensures InOrder(Next(m, Stage(record)))
  {
    hide Queued;
    var m' := Next(m, Stage(record));
    forall f | f in m'.flights
      ensures Queued(m', m'.flights[f].batch + m'.buffer)
    {
      QueueGrows(m, m', m.flights[f].batch + m.buffer);
      assert m'.flights[f].batch + m'.buffer == m.flights[f].batch + m.buffer + [|m.staged|];
    }
    if m.flights == map[] {
      QueueGrows(m, m', m.buffer);
    }
  }

  lemma TakeInOrder(m: Machine, f: nat)
    requires InOrder(m) && m.flights == map[]
    ensures InOrder(Next(m, Take(f)))
  {
    var m' := Next(m, Take(f));
    if m.buffer != [] {
      assert m'.flights[f].batch + m'.buffer == m.buffer;
    }
  }

  /** The newest of a queue are kept: the rest is older. */
  lemma QueueCut(m: Machine, q: seq<nat>, n: nat, m': Machine)
    requires Queued(m, q) && n <= |q| && m'.staged == m.staged
    requires m'.dropped == m.dropped + set i | 0 <= i < n :: q[i]
    ensures Queued(m', q[n..])
    ensures forall d :: d in m'.dropped ==> d in m.dropped || d < |m.staged|
  {
    forall d, t | d in m'.dropped && t in q[n..]
      ensures d < t
    {
      var j :| n <= j < |q| && q[j] == t;
      assert t in q;
      if d !in m.dropped {
        var i :| 0 <= i < n && q[i] == d;
      }
    }
    assert forall i :: 0 <= i < n ==> q[i] in q;
    assert forall t :: t in q[n..] ==> t in q;
  }

  lemma RestageInOrder(m: Machine, f: nat)
    requires InOrder(m) && f in m.flights
    ensures InOrder(Restage(m, f))
  {
    hide Queued;
    var m' := Restage(m, f);
    var all := m.flights[f].batch + m.buffer;
    assert m'.buffer == all[|all| - |m'.buffer|..] && m'.flights == map[];
    QueueCut(m, all, |all| - |m'.buffer|, m');
  }

  /** Nothing changes but what a flush has still to write. */
  lemma SameWaiting(m: Machine, m': Machine)
    requires InOrder(m) && m'.buffer == m.buffer && m'.staged == m.staged && m'.dropped == m.dropped
    requires m'.flights.Keys == m.flights.Keys
    requires forall f :: f in m'.flights ==> m'.flights[f].batch == m.flights[f].batch
    ensures InOrder(m')
  {
    forall f | f in m'.flights
      ensures Queued(m', m'.flights[f].batch + m'.buffer)
    {
      assert Queued(m, m.flights[f].batch + m.buffer);
    }
    if m'.flights == map[] {
      assert m.flights.Keys == {};
    }
  }

  lemma PutInOrder(m: Machine, f: nat, io: Io)
    requires InOrder(m) && f in m.flights && m.flights[f].next.Some?
    ensures InOrder(PutObject(m, f, io))
  {
    hide InOrder, Restage, OfDate;
    var fl := m.flights[f];
    var key := fl.next.value;
    var m1 := m.(objects := m.objects[key := OfDate(m.staged, fl.batch, key.kind, key.date)]);
    SameWaiting(m, m1);
    RestageInOrder(m, f);
    RestageInOrder(m1, f);
    if io == Good {
      SameWaiting(m, PutObject(m, f, io));
    }
  }

  /** A finished flush leaves what was staged since. */
  lemma FinishInOrder(m: Machine, f: nat)
    requires InOrder(m) && f in m.flights
    ensures InOrder(m.(flights := m.flights - {f}))
  {
    var all := m.flights[f].batch + m.buffer;
    assert Queued(m, all);
    assert m.flights - {f} == map[];
    assert m.buffer == all[|m.flights[f].batch|..];
    assert forall t :: t in m.buffer ==> t in all;
  }

  lemma NextInOrder(m: Machine, a: Action)
    requires InOrder(m) && (a.Take? ==> m.flights == map[])
    ensures InOrder(Next(m, a))
  {
    hide InOrder, PutObject;
    match a
    case Stage(record) => StageInOrder(m, record);
    case Take(f) => TakeInOrder(m, f);
    case Put(f, io) =>
      if f in m.flights && m.flights[f].next.Some? {
        PutInOrder(m, f, io);
      }
    case Finish(f) =>
      if f in m.flights {
        FinishInOrder(m, f);
      }
    case _ => SameWaiting(m, Next(m, a));
  }

  lemma {:induction false} ExecInOrder(instance: string, maxBuffered: nat, acts: seq<Action>)
    requires OneAtATime(Initial(instance, maxBuffered), acts)
    ensures InOrder(Exec(Initial(instance, maxBuffered), acts))
  {
    hide Next;
    if acts != [] {
      var n := |acts| - 1;
      forall i | 0 <= i < n && acts[i].Take?
        ensures Exec(Initial(instance, maxBuffered), acts[..n][..i]).flights == map[]
      {
        assert acts[..n][..i] == acts[..i];
      }
      ExecInOrder(instance, maxBuffered, acts[..n]);
      NextInOrder(Exec(Initial(instance, maxBuffered), acts[..n]), acts[n]);
      hide InOrder;
    }
  }

  /**
   While flushes do not overlap, records wait in the order in which they were staged, those of a
   flush under way before those staged since, and whatever failed flushes dropped is older than
   everything that still waits.
   */
  lemma OldestDroppedFirst(instance: string, maxBuffered: nat, acts: seq<Action>)
    requires OneAtATime(Initial(instance, maxBuffered), acts)
    ensures
      var m := Exec(Initial(instance, maxBuffered), acts);
      Rising(m.buffer)
      && (forall f :: f in m.flights ==> Rising(m.flights[f].batch + m.buffer))
      && forall d, t :: d in m.dropped && t in Waiting(m) ==> d < t
  {
    hide Exec;
    ExecInOrder(instance, maxBuffered, acts);
    var m := Exec(Initial(instance, maxBuffered), acts);
    if f :| f in m.flights {
      var all := m.flights[f].batch + m.buffer;
      assert m.buffer == all[|m.flights[f].batch|..];
      assert forall t :: t in Waiting(m) ==> t in all;
    } else {
      assert m.flights == map[];
    }
  }

  lemma ExecSnoc(m: Machine, acts: seq<Action>, a: Action)
    ensures Exec(m, acts + [a]) == Next(Exec(m, acts), a)
  {
    assert (acts + [a])[..|acts|] == acts;
  }

  /** A flush draws its first key and fails to put: what it took goes back, up to the cap. */
  lemma FailedFlush(m: Machine, f: nat, date: int)
    requires f in m.flights && m.flights[f].next == None && date in m.flights[f].raws
    ensures
      var m' := Next(Next(m, Draw(f, Raw, date, 0)), Put(f, Lost));
      var all := m.flights[f].batch + m.buffer;
      m'.buffer == Capped(all, m.maxBuffered) && m'.flights == m.flights - {f} && m'.maxBuffered == m.maxBuffered
      && m'.dropped == m.dropped + set i | 0 <= i < |all| - |Capped(all, m.maxBuffered)| :: all[i]
  {
    var m1 := Next(m, Draw(f, Raw, date, 0));
    assert m1.flights - {f} == m.flights - {f};
  }

  /** Two records are staged, each taken by a flush of its own. */
  lemma TwoFlushes(r: Record) returns (m: Machine)
    ensures m == Next(Next(Next(Next(Initial("worker", 1), Stage(r)), Take(0)), Stage(r)), Take(1))
    ensures m.buffer == [] && m.dropped == {} && m.maxBuffered == 1 && m.flights.Keys == {0, 1}
    ensures forall f :: f in m.flights ==>
      m.flights[f].batch == [f] && m.flights[f].next == None && r.date in m.flights[f].raws
  {
    var m1 := Next(Initial("worker", 1), Stage(r));
    assert m1.buffer == [0] && m1.staged == [r];
    var m2 := Next(m1, Take(0));
    assert r.date in RawDates(m1.staged, m1.buffer) by { assert 0 in m1.buffer && m1.staged[0] == r; }
    var m3 := Next(m2, Stage(r));
    assert m3.buffer == [1] && m3.staged == [r, r];
    m := Next(m3, Take(1));
    assert r.date in RawDates(m3.staged, m3.buffer) by { assert 1 in m3.buffer && m3.staged[1] == r; }
  }

  /** Where two flushes overlap it need not be so: with a cap of one, the newer of two records is dropped. */
  lemma OverlapDropsNewer(r: Record)
    ensures
      var start := [Stage(r), Take(0), Stage(r), Take(1)];
      var fails := [Draw(0, Raw, r.date, 0), Put(0, Lost), Draw(1, Raw, r.date, 0), Put(1, Lost)];
      var m := Exec(Initial("worker", 1), start + fails);
      m.buffer == [0] && m.dropped == {1} && m.flights == map[]
  {
    hide Next, Exec;
    var m0 := Initial("worker", 1);
    var m4 := TwoFlushes(r);
    var start := [Stage(r), Take(0), Stage(r), Take(1)];
    var fails := [Draw(0, Raw, r.date, 0), Put(0, Lost), Draw(1, Raw, r.date, 0), Put(1, Lost)];
    FourSteps(m0, [], start);
    FourSteps(m0, start, fails);
    assert [] + start == start;
    BothFail(m4, r.date);
    NothingYet(m0);
  }

  lemma NothingYet(m: Machine)
    ensures Exec(m, []) == m
  {
  }

  /** The older record goes back first, and behind the newer one, which is then the first to go. */
  lemma BothFail(m: Machine, date: int)
    requires m.buffer == [] && m.dropped == {} && m.maxBuffered == 1 && m.flights.Keys == {0, 1}
    requires forall f :: f in m.flights ==>
      m.flights[f].batch == [f] && m.flights[f].next == None && date in m.flights[f].raws
    ensures
      var m6 := Next(Next(m, Draw(0, Raw, date, 0)), Put(0, Lost));
      var m8 := Next(Next(m6, Draw(1, Raw, date, 0)), Put(1, Lost));
      m8.buffer == [0] && m8.dropped == {1} && m8.flights == map[]
  {
    hide Next;
    FailedFlush(m, 0, date);
    var m6 := Next(Next(m, Draw(0, Raw, date, 0)), Put(0, Lost));
    assert [0] + [] == [0] && m6.buffer == [0] && m6.dropped == {};
    FailedFlush(m6, 1, date);
    var all := m6.flights[1].batch + m6.buffer;
    assert all == [1, 0] && Capped(all, 1) == [0];
    FirstOf(all, |all| - |Capped(all, 1)|);
  }

  lemma FirstOf(all: seq<nat>, n: int)
    requires all != [] && n == 1
    ensures (set i | 0 <= i < n :: all[i]) == {all[0]}
  {
    var first := set i | 0 <= i < n :: all[i];
    forall k | 0 <= k < n
      ensures all[k] in first
    {
    }
  }

  lemma FourSteps(m: Machine, acts: seq<Action>, more: seq<Action>)
    requires |more| == 4
    ensures Exec(m, acts + more) == Next(Next(Next(Next(Exec(m, acts), more[0]), more[1]), more[2]), more[3])
  {
    hide Next;
    ExecSnoc(m, acts, more[0]);
    ExecSnoc(m, acts + [more[0]], more[1]);
    ExecSnoc(m, acts + [more[0]] + [more[1]], more[2]);
    ExecSnoc(m, acts + [more[0]] + [more[1]] + [more[2]], more[3]);
    assert acts + more == acts + [more[0]] + [more[1]] + [more[2]] + [more[3]];
  }
}
