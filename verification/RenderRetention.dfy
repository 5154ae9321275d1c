/**
 The buffered render store and its housekeeping, one operation at a time:
 crates/papermake-registry/src/render_storage/s3_buffered.rs and retention.rs. Any put, get or
 delete may fail, puts and deletes with or without effect. What is proved is the order and size
 of the buffer, which stored renders that expire can escape the expiry index, and what a run of
 renders, flushes and prunes leaves.
 */
module RenderRetention {
  import opened Prelude
  import opened RenderStaging

  // ----- retention rules -----

  const LAST_DATE := 2932896      // 9999-12-31, in days since 1970-01-01

  /** Per render before per template before global; zero is a value like any other. */
  function EffectiveRetainDays(perRender: Option<nat>, perTemplate: Option<nat>, global: nat): nat {
    if perRender.Some? then perRender.value else if perTemplate.Some? then perTemplate.value else global
  }

  /** No expiry for zero days, and none for a date past the calendar. */
  function ExpiryDate(date: int, days: nat): Option<int> {
    if days == 0 || date + days > LAST_DATE then None else Some(date + days)
  }

  /** The record that a render stores and stages. */
  function RecordOf(
    id: string, date: int, payload: string, perRender: Option<nat>, perTemplate: Option<nat>, global: nat): Record
  {
    Record(id, date, ExpiryDate(date, EffectiveRetainDays(perRender, perTemplate, global)), payload)
  }

  /** Kept for so many days after `date`: for ever if that is none, or past the calendar's end. */
  predicate KeptFor(expiry: Option<int>, date: int, days: nat) {
    (expiry.Some? <==> 1 <= days <= LAST_DATE - date) && (expiry.Some? ==> expiry.value - date == days)
  }

  /**
   The record of a render whose own retention decides if it has one, also if that is zero; else its
   template's does, and without either the global one.
   */
  predicate RetainedBy(
    r: Record, id: string, date: int, payload: string, perRender: Option<nat>, perTemplate: Option<nat>, global: nat)
  {
    r.id == id && r.date == date && r.payload == payload
    && (perRender.Some? ==> KeptFor(r.expiry, date, perRender.value))
    && (perRender == None && perTemplate.Some? ==> KeptFor(r.expiry, date, perTemplate.value))
    && (perRender == None && perTemplate == None ==> KeptFor(r.expiry, date, global))
  }

  /** That is the record a render stages, and no other is. */
  lemma RetentionPrecedence(
    r: Record, id: string, date: int, payload: string, perRender: Option<nat>, perTemplate: Option<nat>, global: nat)
    ensures
      RetainedBy(r, id, date, payload, perRender, perTemplate, global)
      <==> r == RecordOf(id, date, payload, perRender, perTemplate, global)
  {
  }

  /** How far a render came: before its meta was stored, stored by a put that failed, or past it. */
  datatype RenderPoint = BeforeMeta | TornMeta | PastMeta

  datatype Meta = Readable(record: Record) | Unreadable

  datatype PruneStats = PruneStats(rendersPruned: nat, expiryFilesConsumed: nat, rawFilesDeleted: nat)

  // ----- partitions of a batch -----

  function On(records: seq<Record>, date: int): seq<Record> {
    if records == [] then []
    else
      On(records[..|records| - 1], date)
      + if records[|records| - 1].date == date then [records[|records| - 1]] else []
  }

  function ExpiringOn(records: seq<Record>, date: int): seq<string> {
    if records == [] then []
    else
      ExpiringOn(records[..|records| - 1], date)
      + if records[|records| - 1].expiry == Some(date) then [records[|records| - 1].id] else []
  }

  function Dates(records: seq<Record>): set<int> {
    set r | r in records :: r.date
  }

  function DueDates(records: seq<Record>): set<int> {
    set r | r in records && r.expiry.Some? :: r.expiry.value
  }

  /** The records of each render date, in order. */
  function ByDate(records: seq<Record>): map<int, seq<Record>> {
    map d | d in Dates(records) :: On(records, d)
  }

  /** The ids that expire on each date, in order. */
  function ByExpiry(records: seq<Record>): map<int, seq<string>> {
    map d | d in DueDates(records) :: ExpiringOn(records, d)
  }

  predicate NewFile<T>(before: map<ObjKey, seq<T>>, after: map<ObjKey, seq<T>>, date: int) {
    exists k :: k in after && k !in before && k.date == date
  }

  /** Exactly one new object for each date, holding exactly its part; nothing else changed. */
  ghost predicate Filed<T(!new)>(before: map<ObjKey, seq<T>>, after: map<ObjKey, seq<T>>, parts: map<int, seq<T>>) {
    (forall k :: k in before ==> k in after && after[k] == before[k])
    && (forall k :: k in after && k !in before ==> k.date in parts && after[k] == parts[k.date])
    && (forall d :: d in parts ==> NewFile(before, after, d))
    && |after| == |before| + |parts|
  }

  lemma {:induction false} ExpiringOnMembers(records: seq<Record>, r: Record)
    requires r in records && r.expiry.Some?
    ensures r.id in ExpiringOn(records, r.expiry.value)
  {
    var n := |records| - 1;
    if records[n] != r {
      assert records == records[..n] + [records[n]];
      ExpiringOnMembers(records[..n], r);
    }
  }

  // ----- coverage -----

  predicate Staged(buffer: seq<Record>, id: string, expiry: int) {
    exists r :: r in buffer && r.id == id && r.expiry == Some(expiry)
  }

  predicate Indexed(index: map<ObjKey, seq<string>>, id: string, expiry: int) {
    exists k :: k in index && k.date == expiry && id in index[k]
  }

  predicate Expires(metas: map<string, Meta>, id: string) {
    id in metas && metas[id].Readable? && metas[id].record.expiry.Some?
  }

  /** The stored renders that expire but are neither staged nor indexed under their date. */
  function Missing(metas: map<string, Meta>, buffer: seq<Record>, index: map<ObjKey, seq<string>>): set<string> {
    set id | id in metas && Expires(metas, id)
             && !Staged(buffer, id, metas[id].record.expiry.value) && !Indexed(index, id, metas[id].record.expiry.value)
  }

  /** The renders of the records that a failed flush drops over the cap. */
  function DroppedIds(buffer: seq<Record>, max: nat): set<string> {
    if |buffer| <= max then {} else set r | r in buffer[..|buffer| - max] :: r.id
  }

  predicate Suffix<T(==)>(a: seq<T>, b: seq<T>) {
    |a| <= |b| && a == b[|b| - |a|..]
  }

  /** A meta that keeps its render: unreadable, for ever, or until a later day. */
  predicate KeptOn(meta: Meta, today: int) {
    meta.Unreadable? || meta.record.expiry == None || meta.record.expiry.value > today
  }

  /** Whether an index entry should prune its render: gone, or expired by its current meta. */
  predicate IsDue(metas: map<string, Meta>, id: string, today: int) {
    id !in metas || (Expires(metas, id) && metas[id].record.expiry.value <= today)
  }

  /** An index object for this day or an earlier one lists the render. */
  predicate ListedBy(index: map<ObjKey, seq<string>>, id: string, today: int) {
    exists k :: k in index && k.date <= today && id in index[k]
  }

  function DueKeys<T>(index: map<ObjKey, T>, today: int): set<ObjKey> {
    set k | k in index && k.date <= today
  }

  class RenderStore {
    var buffer: seq<Record>
    var counter: nat
    var raw: map<ObjKey, seq<Record>>
    var index: map<ObjKey, seq<string>>
    var metas: map<string, Meta>
    var artifacts: set<string>               // renders whose pdf or data is stored
    const instance: string
    const flushMax: nat
    const maxBuffered: nat
    /** No storage operation fails; no put of a meta fails after taking effect. */
    const reliable: bool
    const wholeMetas: bool
    /** The records staged since the last flush that succeeded. */
    ghost var unflushed: seq<Record>

    ghost predicate Bounded()
      reads this
    {
      flushMax >= 1 && maxBuffered >= 1
      && |buffer| <= Max(flushMax - 1, maxBuffered) && Suffix(buffer, unflushed)
    }

    ghost predicate Sound()
      reads this
    {
      (forall k :: k in raw && k.instance == instance ==> k.seqNo < counter)
      && (forall k :: k in index && k.instance == instance ==> k.seqNo < counter)
      && (forall id :: id in metas && metas[id].Readable? ==> metas[id].record.id == id)
    }

    ghost predicate Valid()
      reads this
    {
      Bounded() && Sound()
    }

    /** The stored renders that no prune will find, unless they are rendered again. */
    ghost function Uncovered(): set<string>
      reads this
    {
      Missing(metas, buffer, index)
    }

    constructor (instance: string, flushMaxRecords: nat, max: Option<nat>, reliable: bool, wholeMetas: bool)
      ensures Valid() && buffer == [] && raw == map[] && index == map[] && metas == map[] && artifacts == {}
      ensures this.instance == instance && this.reliable == reliable && this.wholeMetas == wholeMetas
      ensures flushMax == Max(flushMaxRecords, 1)
      ensures maxBuffered == if max.Some? then Max(max.value, 1) else 10 * Max(flushMaxRecords, 1)
    {
      this.instance := instance;
      flushMax := Max(flushMaxRecords, 1);
      maxBuffered := if max.Some? then Max(max.value, 1) else 10 * Max(flushMaxRecords, 1);
      this.reliable, this.wholeMetas := reliable, wholeMetas;
      buffer, counter, raw, index, metas, artifacts, unflushed := [], 0, map[], map[], map[], {}, [];
    }

    method Clock() returns (millis: int) {
      millis := *;
    }

    // ----- staging and flushing -----

    /** Put one raw object under a fresh key. */
    method PutRaw(date: int, body: seq<Record>, millis: int) returns (ok: bool)
      requires Sound()
      modifies this`raw, this`counter
      ensures Sound() && counter == old(counter) + 1
      ensures forall k :: k in old(raw) ==> k in raw && raw[k] == old(raw)[k]
      ensures ok ==> exists k :: k !in old(raw) && k.date == date && raw == old(raw)[k := body]
      ensures reliable ==> ok
    {
      var key := ObjKey(Raw, date, instance, millis, counter);
      counter := counter + 1;
      var io := Attempt(reliable);
      if io != Lost {
        raw := raw[key := body];
      }
      ok := io == Good;
      assert ok ==> key !in old(raw) && raw == old(raw)[key := body];
    }

    /** Put one expiry-index object under a fresh key. */
    method PutIndex(date: int, ids: seq<string>, millis: int) returns (ok: bool)
      requires Sound()
      modifies this`index, this`counter
      ensures Sound() && counter == old(counter) + 1
      ensures forall k :: k in old(index) ==> k in index && index[k] == old(index)[k]
      ensures ok ==> exists k :: k !in old(index) && k.date == date && index == old(index)[k := ids]
      ensures reliable ==> ok
    {
      var key := ObjKey(Expiry, date, instance, millis, counter);
      counter := counter + 1;
      var io := Attempt(reliable);
      if io != Lost {
        index := index[key := ids];
      }
      ok := io == Good;
      assert ok ==> key !in old(index) && index == old(index)[key := ids];
    }

    /** The raw half of `write_drained`. */
    method WriteRaw(drained: seq<Record>, millis: int) returns (ok: bool)
      requires Sound()
      modifies this`raw, this`counter
      ensures Sound()
      ensures ok ==> Filed(old(raw), raw, ByDate(drained))
      ensures reliable ==> ok
    {
      hide On, Filed;
      var groups: map<int, seq<Record>> := map[];
      for i := 0 to |drained|
        invariant Sound() && raw == old(raw)
        invariant groups == ByDate(drained[..i])
      {
        var r := drained[i];
        OnStep(drained, i);
        groups := groups[r.date := (if r.date in groups then groups[r.date] else []) + [r]];
      }
      assert drained[..|drained|] == drained;
      var rest := groups.Keys;
      FiledNone(raw, groups);
      while rest != {}
        invariant Sound() && rest <= groups.Keys
        invariant Filed(old(raw), raw, groups - rest)
        decreases rest
      {
        var date := Pick(rest);
        ghost var mid := raw;
        ok := PutRaw(date, groups[date], millis);
        if !ok {
          return;
        }
        OneFewer(groups, rest, date);
        FiledStep(old(raw), mid, raw, groups - rest, date, groups[date]);
        rest := rest - {date};
      }
      assert groups - {} == groups;
      ok := true;
    }

    /** The expiry-index half of `write_drained`: renders kept forever get no entry. */
    method WriteIndex(drained: seq<Record>, millis: int) returns (ok: bool)
      requires Sound()
      modifies this`index, this`counter
      ensures Sound()
      ensures forall k :: k in old(index) ==> k in index && index[k] == old(index)[k]
      ensures ok ==> Filed(old(index), index, ByExpiry(drained))
      ensures reliable ==> ok
    {
      hide ExpiringOn, Filed;
      var groups: map<int, seq<string>> := map[];
      for i := 0 to |drained|
        invariant Sound() && index == old(index)
        invariant groups == ByExpiry(drained[..i])
      {
        var r := drained[i];
        ExpiringStep(drained, i);
        if r.expiry.Some? {
          var d := r.expiry.value;
          groups := groups[d := (if d in groups then groups[d] else []) + [r.id]];
        }
      }
      assert drained[..|drained|] == drained;
      var rest := groups.Keys;
      FiledNone(index, groups);
      while rest != {}
        invariant Sound() && rest <= groups.Keys
        invariant forall k :: k in old(index) ==> k in index && index[k] == old(index)[k]
        invariant Filed(old(index), index, groups - rest)
        decreases rest
      {
        var date := Pick(rest);
        ghost var mid := index;
        ok := PutIndex(date, groups[date], millis);
        if !ok {
          return;
        }
        OneFewer(groups, rest, date);
        FiledStep(old(index), mid, index, groups - rest, date, groups[date]);
        rest := rest - {date};
      }
      assert groups - {} == groups;
      ok := true;
    }

    /**
     `flush`. Success empties the buffer and files all of it, one new raw object for each render
     date and one index object for each expiry date, so it covers what was covered; failure leaves
     it staged, newest kept, and uncovers at most what the cap drops. Nothing is indexed before all of
     it is in raw objects.
     */
    method Flush() returns (ok: bool)
      requires flushMax >= 1 && maxBuffered >= 1 && Suffix(buffer, unflushed) && Sound()
      modifies this`buffer, this`raw, this`index, this`counter, this`unflushed
      ensures Valid()
      ensures ok ==> buffer == [] && Uncovered() == old(Uncovered())
      ensures ok && old(buffer) != [] ==>
        Filed(old(raw), raw, ByDate(old(buffer)))
        && Filed(old(index), index, ByExpiry(old(buffer)))
      ensures !ok ==>
        buffer == Capped(old(buffer), maxBuffered)
        && Uncovered() <= old(Uncovered()) + DroppedIds(old(buffer), maxBuffered)
      ensures index != old(index) ==> Filed(old(raw), raw, ByDate(old(buffer)))
      ensures reliable ==> ok
    {
      hide Filed, ByDate, ByExpiry, On, ExpiringOn, Missing;
      if buffer == [] {
        return true;
      }
      var drained := buffer;
      buffer := [];
      var millis := Clock();
      ok := WriteRaw(drained, millis);
      if ok {
        ok := WriteIndex(drained, millis);
      }
      if ok {
        FlushCovers(metas, drained, old(index), index);
        unflushed := [];
      } else {
        CoverGrows(metas, drained, old(index), index);
        Restage(drained);
      }
    }

    /** A flush failed: put the batch back in front, and drop the oldest over the cap. */
    method Restage(drained: seq<Record>)
      requires flushMax >= 1 && maxBuffered >= 1 && buffer == [] && Suffix(drained, unflushed)
      modifies this`buffer
      ensures Bounded() && buffer == Capped(drained, maxBuffered)
      ensures Uncovered() <= Missing(metas, drained, index) + DroppedIds(drained, maxBuffered)
    {
      hide Missing;
      buffer := drained + buffer;
      assert buffer == drained;
      if |buffer| > maxBuffered {
        var n := |buffer| - maxBuffered;
        DropUncovers(metas, buffer, n, index);
        buffer := buffer[n..];
      }
    }

    /** `store_render`: stage, and flush when the buffer is full. Staging covers the render. */
    method StoreRender(record: Record) returns (ok: bool)
      requires Valid() && record.id in metas && metas[record.id] == Readable(record)
      modifies this`buffer, this`raw, this`index, this`counter, this`unflushed
      ensures Valid()
      ensures ok ==>
        Uncovered() == old(Uncovered()) - {record.id}
        && buffer == if |old(buffer)| + 1 < flushMax then old(buffer) + [record] else []
      ensures !ok ==>
        Uncovered() <= (old(Uncovered()) - {record.id}) + DroppedIds(old(buffer) + [record], maxBuffered)
        && buffer == Capped(old(buffer) + [record], maxBuffered) && |old(buffer)| + 1 >= flushMax
      ensures reliable ==> ok
    {
      hide Missing, DroppedIds;
      StageCovers(metas, buffer, index, record);
      buffer := buffer + [record];
      unflushed := unflushed + [record];
      ok := true;
      if |buffer| >= flushMax {
        ok := Flush();
      }
    }

    /** `put` of a render's `meta.json`. */
    method PutMeta(id: string, record: Record) returns (io: Io)
      requires Valid() && record.id == id
      modifies this`metas
      ensures Valid()
      ensures metas == if io == Lost then old(metas) else old(metas)[id := Readable(record)]
      ensures wholeMetas ==> io != Torn
      ensures reliable ==> io == Good
    {
      io := Attempt(reliable);
      if io == Torn && wholeMetas {
        io := Lost;
      }
      if io != Lost {
        metas := metas[id := Readable(record)];
      }
    }

    /**
     A render stores its meta and then stages its record, with the expiry its retention gives. `point`
     says how far it came: a render that fails stored no meta, or stored one with a torn put and staged
     nothing, or was staged and met a failed flush.
     */
    method Render(id: string, date: int, payload: string, perRender: Option<nat>, perTemplate: Option<nat>, global: nat)
      returns (ok: bool, ghost point: RenderPoint)
      requires Valid()
      modifies this`buffer, this`raw, this`index, this`counter, this`unflushed, this`metas, this`artifacts
      ensures Valid()
      ensures ok ==> point == PastMeta
      ensures point == BeforeMeta ==>
        metas == old(metas) && buffer == old(buffer) && Uncovered() == old(Uncovered())
      ensures point == TornMeta ==>
        !wholeMetas && metas == old(metas)[id := Readable(RecordOf(id, date, payload, perRender, perTemplate, global))]
        && buffer == old(buffer) && Uncovered() <= old(Uncovered()) + {id}
      ensures point == PastMeta ==>
        var record := RecordOf(id, date, payload, perRender, perTemplate, global);
        metas == old(metas)[id := Readable(record)] && id in artifacts &&
        if ok then
          Uncovered() == old(Uncovered()) - {id}
          && buffer == if |old(buffer)| + 1 < flushMax then old(buffer) + [record] else []
        else
          Uncovered() <= (old(Uncovered()) - {id}) + DroppedIds(old(buffer) + [record], maxBuffered)
          && buffer == Capped(old(buffer) + [record], maxBuffered)
      ensures point != BeforeMeta ==>
        id in metas && metas[id].Readable?
        && RetainedBy(metas[id].record, id, date, payload, perRender, perTemplate, global)
      ensures reliable ==> ok
    {
      hide Missing, DroppedIds;
      point := BeforeMeta;
      var days := EffectiveRetainDays(perRender, perTemplate, global);
      var record := Record(id, date, ExpiryDate(date, days), payload);
      var io := Attempt(reliable);
      if io != Lost {
        artifacts := artifacts + {id};
      }
      if io != Good {
        return false, point;
      }
      io := PutMeta(id, record);
      OneMeta(old(metas), buffer, index, id, record);
      if io != Good {
        return false, if io == Torn then TornMeta else BeforeMeta;
      }
      ok := StoreRender(record);
      point := PastMeta;
    }

    // ----- pruning -----

    /** The ids listed in due index objects, each once, and the keys of those objects. */
    method CollectDue(today: int) returns (r: Option<(set<string>, set<ObjKey>)>)
      ensures r.Some? ==> r.value.1 == DueKeys(index, today)
      ensures r.Some? ==> r.value.0 == set k, id | k in DueKeys(index, today) && id in index[k] :: id
      ensures reliable ==> r.Some?
    {
      var rest := index.Keys;
      var ids: set<string>, keys: set<ObjKey> := {}, {};
      while rest != {}
        invariant rest <= index.Keys
        invariant keys == set k | k in index && k !in rest && k.date <= today
        invariant ids == set k, id | k in keys && id in index[k] :: id
        decreases rest
      {
        var key :| key in rest;
        if key.date <= today {
          var readable := AttemptRead(reliable);
          if !readable {
            return None;
          }
          ids := ids + set id | id in index[key];
          keys := keys + {key};
        }
        rest := rest - {key};
      }
      return Some((ids, keys));
    }

    /** `expiry_entry_is_due`, with the render's current meta; a backend error is passed on. */
    method ExpiryEntryIsDue(id: string, today: int) returns (r: Option<bool>)
      ensures r.Some? ==> (r.value <==> IsDue(metas, id, today))
      ensures r.Some? && id !in metas ==> r.value
      ensures r.Some? && id in metas ==> (r.value <==> !KeptOn(metas[id], today))
      ensures reliable ==> r.Some?
    {
      var readable := AttemptRead(reliable);
      if !readable {
        return None;
      }
      if id !in metas {
        return Some(true);
      }
      match metas[id] {
        case Readable(record) =>
          match record.expiry {
            case None => return Some(false);
            case Some(expiry) => return Some(expiry <= today);
          }
        case Unreadable => return Some(false);
      }
    }

    /** The renders whose artifacts are to be deleted. */
    method SelectDue(ids: set<string>, today: int) returns (r: Option<set<string>>)
      ensures r.Some? ==> r.value == set id | id in ids && IsDue(metas, id, today)
      ensures reliable ==> r.Some?
    {
      var rest := ids;
      var due: set<string> := {};
      while rest != {}
        invariant rest <= ids && due == set id | id in ids - rest && IsDue(metas, id, today)
        decreases rest
      {
        var id :| id in rest;
        var isDue := ExpiryEntryIsDue(id, today);
        if isDue == None {
          return None;
        }
        if isDue.value {
          due := due + {id};
        }
        rest := rest - {id};
      }
      return Some(due);
    }

    /** Delete metas and artifacts one key after another, up to the first error. */
    method DeleteRenders(due: set<string>) returns (ok: bool)
      requires Valid()
      modifies this`metas, this`artifacts
      ensures Valid() && Uncovered() <= old(Uncovered())
      ensures metas.Keys <= old(metas).Keys && old(metas).Keys - due <= metas.Keys
      ensures forall id :: id in metas ==> metas[id] == old(metas)[id]
      ensures artifacts <= old(artifacts) && old(artifacts) - due <= artifacts
      ensures forall id :: id in metas ==> (id in artifacts <==> id in old(artifacts))
      ensures ok ==> metas == old(metas) - due && artifacts == old(artifacts) - due
      ensures reliable ==> ok
    {
      hide Missing;
      var rest := due;
      while rest != {}
        invariant Valid() && rest <= due
        invariant metas == old(metas) - (due - rest) && artifacts == old(artifacts) - (due - rest)
        invariant Uncovered() <= old(Uncovered())
        decreases rest
      {
        var id :| id in rest;
        var io := Attempt(reliable);
        if io != Lost {
          FewerMetas(metas, id, buffer, index);
          metas := metas - {id};
        }
        if io != Good {
          return false;
        }
        io := Attempt(reliable);
        if io != Lost {
          artifacts := artifacts - {id};
        }
        if io != Good {
          return false;
        }
        rest := rest - {id};
        assert metas == old(metas) - (due - rest);
      }
      assert due - {} == due;
      return true;
    }

    /** Delete consumed index objects, up to the first error. */
    method DeleteIndex(keys: set<ObjKey>, ghost today: int, ghost except: set<string>) returns (ok: bool)
      requires Valid() && keys == DueKeys(index, today) && Uncovered() <= except
      requires DueAccounted(metas, buffer, today, except)
      modifies this`index
      ensures Valid() && Uncovered() <= except
      ensures ok ==> index == old(index) - keys
      ensures reliable ==> ok
    {
      hide Missing, DueAccounted;
      var rest := keys;
      while rest != {}
        invariant Valid() && rest <= keys && index == old(index) - (keys - rest)
        invariant Uncovered() <= except
        decreases rest
      {
        var key :| key in rest;
        var io := Attempt(reliable);
        if io != Lost {
          IndexDropCovers(metas, buffer, index, except, key, today);
          OneMoreGone(old(index), keys, rest, key);
          index := index - {key};
        }
        if io != Good {
          return false;
        }
        rest := rest - {key};
      }
      assert keys - {} == keys;
      return true;
    }

    /** Delete raw objects older than the cutoff, up to the first error. */
    method DeleteRaw(cutoff: int) returns (ok: bool, deleted: nat)
      requires Valid()
      modifies this`raw
      ensures Valid()
      ensures ok ==> raw == (map k | k in old(raw) && k.date >= cutoff :: old(raw)[k])
      ensures ok ==> deleted == |set k | k in old(raw) && k.date < cutoff|
      ensures reliable ==> ok
    {
      var keys := set k | k in raw && k.date < cutoff;
      var rest := keys;
      while rest != {}
        invariant Valid() && rest <= keys && raw == old(raw) - (keys - rest)
        decreases rest
      {
        var key :| key in rest;
        var io := Attempt(reliable);
        if io != Lost {
          OneMoreGone(old(raw), keys, rest, key);
          raw := raw - {key};
        }
        if io != Good {
          return false, 0;
        }
        rest := rest - {key};
      }
      assert keys - {} == keys;
      KeepRecent(old(raw), cutoff);
      return true, |keys|;
    }

    /**
     `prune`, up to its batch-job part. It never deletes a render whose current meta is unreadable,
     unset or in the future, or that no due index object lists, and it uncovers nothing. When it
     succeeds, what such an object lists is gone with its artifacts unless it is to be kept, also what a
     prune before left without a meta, and every remaining render that is due is staged or was
     uncovered before. When it fails, a render that still has its meta has its artifacts, and what lost
     its meta but not its artifacts is still listed, so that a later prune finds it.
     */
    method Prune(today: int, analyticsRetentionDays: nat) returns (r: Option<PruneStats>)
      requires Valid()
      modifies this`metas, this`artifacts, this`index, this`raw
      ensures Valid() && Uncovered() <= old(Uncovered())
      ensures forall id :: id in old(metas) && KeptOn(old(metas)[id], today) ==>
        id in metas && metas[id] == old(metas)[id] && (id in artifacts <==> id in old(artifacts))
      ensures r.Some? ==> forall id :: ListedBy(old(index), id, today) && id !in metas ==> id !in artifacts
      ensures r.Some? ==> forall id ::
        ListedBy(old(index), id, today) && id in old(metas) && !KeptOn(old(metas)[id], today) ==> id !in metas
      ensures forall id :: id in old(artifacts) && id !in artifacts ==> ListedBy(old(index), id, today)
      ensures forall id :: id in metas ==> (id in artifacts <==> id in old(artifacts))
      ensures forall id :: id in old(metas) && id !in metas && id in artifacts ==> ListedBy(index, id, today)
      ensures forall id :: id in metas ==> id in old(metas) && metas[id] == old(metas)[id]
      ensures r.Some? ==> forall id :: id in old(metas) && id !in metas ==> id !in artifacts
      ensures r.Some? ==> index == old(index) - DueKeys(old(index), today)
      ensures r.Some? ==> raw == map k | k in old(raw) && k.date >= today - analyticsRetentionDays :: old(raw)[k]
      ensures r.Some? ==> DueAccounted(metas, buffer, today, old(Uncovered()))
      ensures r.Some? ==>
        r.value.expiryFilesConsumed == |DueKeys(old(index), today)|
        && r.value.rendersPruned == |DueIds(old(metas), old(index), today)|
        && r.value.rawFilesDeleted == |set k | k in old(raw) && k.date < today - analyticsRetentionDays|
      ensures reliable ==> r.Some?
    {
      hide Missing, DueAccounted;
      var collected := CollectDue(today);
      if collected == None {
        return None;
      }
      var (ids, keys) := collected.value;
      var due := SelectDue(ids, today);
      if due == None {
        return None;
      }
      assert due.value == DueIds(metas, index, today);
      DueMeans(metas, index, today);
      DueLeavesStaged(metas, buffer, index, today);
      var ok := DeleteRenders(due.value);
      if !ok {
        return None;
      }
      ok := DeleteIndex(keys, today, old(Uncovered()));
      if !ok {
        return None;
      }
      var deleted;
      ok, deleted := DeleteRaw(today - analyticsRetentionDays);
      if !ok {
        return None;
      }
      return Some(PruneStats(|due.value|, |keys|, deleted));
    }
  }

  /** The renders that due index objects list and whose current meta agrees that they are due, or gone. */
  function DueIds(metas: map<string, Meta>, index: map<ObjKey, seq<string>>, today: int): set<string> {
    set k, id | k in DueKeys(index, today) && id in index[k] && IsDue(metas, id, today) :: id
  }

  /** The renders to delete are those listed by a due object, without those whose meta keeps them. */
  lemma DueMeans(metas: map<string, Meta>, index: map<ObjKey, seq<string>>, today: int)
    ensures forall id :: id in DueIds(metas, index, today) <==>
      ListedBy(index, id, today) && (id in metas ==> !KeptOn(metas[id], today))
  {
    forall id | ListedBy(index, id, today) && (id in metas ==> !KeptOn(metas[id], today))
      ensures id in DueIds(metas, index, today)
    {
      var k :| k in index && k.date <= today && id in index[k];
      assert k in DueKeys(index, today) && IsDue(metas, id, today);
    }
    forall id | id in DueIds(metas, index, today)
      ensures ListedBy(index, id, today) && (id in metas ==> !KeptOn(metas[id], today))
    {
      var k :| k in DueKeys(index, today) && id in index[k] && IsDue(metas, id, today);
      assert k in index;
    }
  }

  /** A render that is due is staged, or one of the exceptions. */
  predicate DueAccounted(metas: map<string, Meta>, buffer: seq<Record>, today: int, except: set<string>) {
    forall id :: id in metas && Expires(metas, id) && metas[id].record.expiry.value <= today ==>
      id in except || Staged(buffer, id, metas[id].record.expiry.value)
  }

  /** No stored render is due, apart from the exceptions. */
  predicate NothingDue(metas: map<string, Meta>, today: int, except: set<string>) {
    forall id :: id in metas && Expires(metas, id) && id !in except ==> metas[id].record.expiry.value > today
  }

  /**
   Flushing and then pruning leaves no stored render that is due, unless it was uncovered before;
   nothing that is not due is touched, and what is pruned is gone with its artifacts. A failed
   flush uncovers at most what the cap drops.
   */
  method FlushThenPrune(store: RenderStore, today: int, analyticsRetentionDays: nat)
    returns (done: bool, ghost flushed: bool)
    requires store.Valid()
    modifies store
    ensures store.Valid()
    ensures done ==>
      NothingDue(store.metas, today, old(store.Uncovered())) && store.Uncovered() <= old(store.Uncovered())
      && store.buffer == [] && (forall k :: k in store.index ==> k.date > today)
      && (forall k :: k in store.raw ==> k.date >= today - analyticsRetentionDays)
      && (forall id :: id in old(store.metas) && id !in store.metas ==> id !in store.artifacts)
    ensures done ==> flushed
    ensures flushed ==> store.buffer == [] && store.Uncovered() <= old(store.Uncovered())
    ensures !flushed ==>
      store.Uncovered() <= old(store.Uncovered()) + DroppedIds(old(store.buffer), store.maxBuffered)
      && store.buffer == Capped(old(store.buffer), store.maxBuffered)
    ensures forall id :: id in store.metas ==> id in old(store.metas) && store.metas[id] == old(store.metas)[id]
    ensures forall id :: id in old(store.metas) && KeptOn(old(store.metas)[id], today) ==>
      id in store.metas && (id in store.artifacts <==> id in old(store.artifacts))
    ensures store.reliable ==> done
  {
    hide Missing, DroppedIds;
    done := store.Flush();
    flushed := done;
    if done {
      var r := store.Prune(today, analyticsRetentionDays);
      done := r.Some?;
    }
  }

  // ----- runs -----

  /** What a process asks of the store. */
  datatype Op =
    | RenderOp(id: string, date: int, payload: string, perRender: Option<nat>, perTemplate: Option<nat>, global: nat)
    | FlushOp
    | PruneOp(today: int, analyticsRetentionDays: nat)

  function NumRenders(ops: seq<Op>): nat {
    if ops == [] then 0 else NumRenders(ops[..|ops| - 1]) + Staging(ops[|ops| - 1])
  }

  /** How many records an operation stages. */
  function Staging(op: Op): nat {
    if op.RenderOp? then 1 else 0
  }

  /** The metas after an operation if nothing were ever pruned. */
  function WithOp(metas: map<string, Meta>, op: Op): map<string, Meta> {
    match op
    case RenderOp(id, date, payload, perRender, perTemplate, global) =>
      metas[id := Readable(RecordOf(id, date, payload, perRender, perTemplate, global))]
    case _ => metas
  }

  /** The last meta of each render of a run. */
  function AllMetas(metas: map<string, Meta>, ops: seq<Op>): map<string, Meta> {
    if ops == [] then metas else WithOp(AllMetas(metas, ops[..|ops| - 1]), ops[|ops| - 1])
  }

  /** The renders that are not due yet. */
  function NotDue(metas: map<string, Meta>, today: int): map<string, Meta> {
    map id | id in metas && !(Expires(metas, id) && metas[id].record.expiry.value <= today) :: metas[id]
  }

  /** `metas` is `all` without some renders that are due. */
  predicate DueGone(metas: map<string, Meta>, all: map<string, Meta>, today: int) {
    (forall id :: id in metas ==> id in all && metas[id] == all[id])
    && forall id :: id in all && id !in metas ==> Expires(all, id) && all[id].record.expiry.value <= today
  }

  /** No prune of the run looks further ahead than `today`. */
  predicate PrunesBy(ops: seq<Op>, today: int) {
    forall i :: 0 <= i < |ops| && ops[i].PruneOp? ==> ops[i].today <= today
  }

  /**
   What one operation did: the buffer before it, with the record it staged, and after it; whether a
   flush of what was staged failed; and the render whose meta put was torn, if any.
   */
  datatype Served = Served(
    before: seq<Record>, staged: seq<Record>, after: seq<Record>, flushFailed: bool, torn: set<string>)

  /** The renders of the records that the operation dropped over the cap: none unless its flush failed. */
  function DroppedBy(e: Served, max: nat): set<string> {
    if e.flushFailed then DroppedIds(e.staged, max) else {}
  }

  predicate Records(e: Served, op: Op, max: nat) {
    (e.staged == e.before || (op.RenderOp? && e.staged == e.before + [OpRecord(op)]))
    && (if e.flushFailed then e.after == Capped(e.staged, max) && !op.PruneOp?
        else e.after == e.staged || e.after == [])
    && (e.torn == {} || (op.RenderOp? && e.torn == {op.id} && e.staged == e.before && !e.flushFailed))
  }

  function OpRecord(op: Op): Record
    requires op.RenderOp?
  {
    RecordOf(op.id, op.date, op.payload, op.perRender, op.perTemplate, op.global)
  }

  /** The log of a run that starts with this buffer: one entry for each operation, each where the last ended. */
  predicate IsLog(log: seq<Served>, ops: seq<Op>, buffer: seq<Record>, max: nat) {
    |log| == |ops|
    && (forall i :: 0 <= i < |log| ==> Records(log[i], ops[i], max))
    && (forall i :: 0 <= i < |log| ==> log[i].before == LastBuffer(log[..i], buffer))
  }

  /** The buffer that a run leaves. */
  function LastBuffer(log: seq<Served>, buffer: seq<Record>): seq<Record> {
    if log == [] then buffer else log[|log| - 1].after
  }

  /** The renders of all records that failed flushes of the run dropped. */
  function AllDropped(log: seq<Served>, max: nat): set<string> {
    if log == [] then {} else AllDropped(log[..|log| - 1], max) + DroppedBy(log[|log| - 1], max)
  }

  /** The renders with a torn meta put. */
  function AllTorn(log: seq<Served>): set<string> {
    if log == [] then {} else AllTorn(log[..|log| - 1]) + log[|log| - 1].torn
  }

  /** No failed flush of the run has more than the cap to put back. */
  predicate NoDrop(log: seq<Served>, max: nat) {
    forall i :: 0 <= i < |log| && log[i].flushFailed ==> |log[i].staged| <= max
  }

  /** One operation, whether it succeeds or not: it uncovers at most what it dropped or tore. */
  method Serve(store: RenderStore, op: Op, ghost all: map<string, Meta>, ghost today: int) returns (ghost e: Served)
    requires store.Valid()
    modifies store
    ensures store.Valid()
    ensures e.before == old(store.buffer) && e.after == store.buffer && Records(e, op, store.maxBuffered)
    ensures store.Uncovered() <= old(store.Uncovered()) + DroppedBy(e, store.maxBuffered) + e.torn
    ensures store.wholeMetas ==> e.torn == {}
    ensures store.reliable ==> !e.flushFailed && e.torn == {}
    ensures store.reliable && (op.PruneOp? ==> op.today <= today) && DueGone(old(store.metas), all, today) ==>
      DueGone(store.metas, WithOp(all, op), today)
  {
    hide Missing, DroppedIds, DueGone, WithOp, Records, DroppedBy;
    ghost var before, metas := store.buffer, store.metas;
    match op
    case RenderOp(_, _, _, _, _, _) =>
      e := ServeRender(store, op, all, today);
    case FlushOp =>
      var ok := store.Flush();
      e := Served(before, before, store.buffer, !ok, {});
      QuietServed(e, op, store.maxBuffered, all);
    case PruneOp(day, analyticsRetentionDays) =>
      var _ := store.Prune(day, analyticsRetentionDays);
      e := Served(before, before, store.buffer, false, {});
      QuietServed(e, op, store.maxBuffered, all);
      PruneGone(metas, store.metas, all, day, today);
  }

  method ServeRender(store: RenderStore, op: Op, ghost all: map<string, Meta>, ghost today: int)
    returns (ghost e: Served)
    requires store.Valid() && op.RenderOp?
    modifies store
    ensures store.Valid()
    ensures e.before == old(store.buffer) && e.after == store.buffer && Records(e, op, store.maxBuffered)
    ensures store.Uncovered() <= old(store.Uncovered()) + DroppedBy(e, store.maxBuffered) + e.torn
    ensures store.wholeMetas ==> e.torn == {}
    ensures store.reliable ==> !e.flushFailed && e.torn == {}
    ensures store.reliable && DueGone(old(store.metas), all, today) ==> DueGone(store.metas, WithOp(all, op), today)
  {
    hide Missing, DroppedIds, DueGone, WithOp, Capped;
    ghost var before, metas := store.buffer, store.metas;
    var ok;
    ghost var point;
    ok, point := store.Render(op.id, op.date, op.payload, op.perRender, op.perTemplate, op.global);
    e := Served(before, if point == PastMeta then before + [OpRecord(op)] else before, store.buffer,
                point == PastMeta && !ok, if point == TornMeta then {op.id} else {});
    RenderGone(metas, all, op, today);
  }

  /** A flush or prune that kept the buffer or emptied it, or a flush that failed. */
  lemma QuietServed(e: Served, op: Op, max: nat, all: map<string, Meta>)
    requires e.staged == e.before && e.torn == {} && !op.RenderOp?
    requires
      if e.flushFailed then op.FlushOp? && e.after == Capped(e.staged, max) else e.after == e.staged || e.after == []
    ensures Records(e, op, max) && WithOp(all, op) == all
    ensures DroppedBy(e, max) == if e.flushFailed then DroppedIds(e.before, max) else {}
  {
  }

  lemma RenderGone(metas: map<string, Meta>, all: map<string, Meta>, op: Op, today: int)
    requires op.RenderOp?
    ensures DueGone(metas, all, today) ==>
      DueGone(metas[op.id := Readable(OpRecord(op))], WithOp(all, op), today)
  {
  }

  /** A prune that looks no further ahead takes only what is due by then. */
  lemma PruneGone(before: map<string, Meta>, after: map<string, Meta>, all: map<string, Meta>, day: int, today: int)
    requires forall id :: id in before && KeptOn(before[id], day) ==> id in after && after[id] == before[id]
    requires forall id :: id in after ==> id in before && after[id] == before[id]
    ensures day <= today && DueGone(before, all, today) ==> DueGone(after, all, today)
  {
  }

  /** The operations of a run one after another. */
  method RunOps(store: RenderStore, ops: seq<Op>, ghost today: int) returns (ghost log: seq<Served>)
    requires store.Valid()
    modifies store
    ensures store.Valid() && IsLog(log, ops, old(store.buffer), store.maxBuffered)
    ensures store.buffer == LastBuffer(log, old(store.buffer))
    ensures store.Uncovered() <= old(store.Uncovered()) + AllDropped(log, store.maxBuffered) + AllTorn(log)
    ensures store.wholeMetas ==> AllTorn(log) == {}
    ensures store.reliable ==> AllTorn(log) == {} && NoneFailed(log)
    ensures store.reliable && PrunesBy(ops, today) ==>
      DueGone(store.metas, AllMetas(old(store.metas), ops), today)
  {
    hide Missing, DroppedIds, Records, IsLog, AllDropped, AllTorn, DroppedBy, AllMetas, NoneFailed, DueGone, WithOp;
    log := [];
    EmptyLog(old(store.buffer), store.maxBuffered);
    AllMetasStart(store.metas, today);
    for i := 0 to |ops|
      invariant store.Valid() && IsLog(log, ops[..i], old(store.buffer), store.maxBuffered)
      invariant store.buffer == LastBuffer(log, old(store.buffer))
      invariant store.Uncovered() <= old(store.Uncovered()) + AllDropped(log, store.maxBuffered) + AllTorn(log)
      invariant store.wholeMetas ==> AllTorn(log) == {}
      invariant store.reliable ==> AllTorn(log) == {} && NoneFailed(log)
      invariant store.reliable && PrunesBy(ops, today) ==>
        DueGone(store.metas, AllMetas(old(store.metas), ops[..i]), today)
    {
      AllMetasStep(old(store.metas), ops, i);
      ghost var e := Serve(store, ops[i], AllMetas(old(store.metas), ops[..i]), today);
      LogGrows(log, ops[..i], old(store.buffer), store.maxBuffered, e, ops[i]);
      log := log + [e];
    }
    assert ops[..|ops|] == ops;
  }

  lemma EmptyLog(buffer: seq<Record>, max: nat)
    ensures IsLog([], [], buffer, max) && AllDropped([], max) == {} && AllTorn([]) == {} && NoneFailed([])
  {
  }

  lemma AllMetasStart(metas: map<string, Meta>, today: int)
    ensures AllMetas(metas, []) == metas && DueGone(metas, metas, today)
  {
  }

  lemma AllMetasStep(metas: map<string, Meta>, ops: seq<Op>, i: nat)
    requires i < |ops|
    ensures ops[..i] + [ops[i]] == ops[..i + 1]
    ensures AllMetas(metas, ops[..i + 1]) == WithOp(AllMetas(metas, ops[..i]), ops[i])
  {
    assert ops[..i + 1][..i] == ops[..i];
  }

  /**
   Renders, flushes and prunes in any order, whatever fails, then a flush and a prune. Uncovered are at
   most the renders that failed flushes dropped over the cap and those whose meta put was torn, and a
   sweep that succeeds leaves no other render due. So with no drop and no torn meta put none is
   uncovered, however long the run. Without failures what remains is exactly the last meta of every
   render that is not due, wherever the flushes and prunes came.
   */
  method RunThenSweep(store: RenderStore, ops: seq<Op>, today: int, analyticsRetentionDays: nat)
    returns (done: bool, ghost log: seq<Served>)
    requires store.Valid()
    modifies store
    ensures store.Valid() && IsLog(log, ops + [FlushOp], old(store.buffer), store.maxBuffered)
    ensures
      var escaped := old(store.Uncovered()) + AllDropped(log, store.maxBuffered) + AllTorn(log);
      store.Uncovered() <= escaped && (done ==> NothingDue(store.metas, today, escaped))
    ensures store.wholeMetas ==> AllTorn(log) == {}
    ensures store.reliable ==> done && NoDrop(log, store.maxBuffered) && AllTorn(log) == {}
    ensures AllTorn(log) == {} && NoDrop(log, store.maxBuffered) ==>
      store.Uncovered() <= old(store.Uncovered())
      && (done ==> NothingDue(store.metas, today, old(store.Uncovered())))
    ensures |old(store.buffer)| + NumRenders(ops) <= store.maxBuffered ==> NoDrop(log, store.maxBuffered)
    ensures store.reliable && old(store.Uncovered()) == {} && PrunesBy(ops, today) ==>
      done && store.metas == NotDue(AllMetas(old(store.metas), ops), today)
  {
    hide Missing, DroppedIds, Records, IsLog, AllDropped, AllTorn, AllMetas;
    log := RunOps(store, ops, today);
    ghost var ran, staged := log, store.buffer;
    ghost var flushed;
    done, flushed := FlushThenPrune(store, today, analyticsRetentionDays);
    ghost var e := Served(staged, staged, store.buffer, !flushed, {});
    FlushRecords(staged, store.buffer, store.maxBuffered, flushed);
    LogGrows(ran, ops, old(store.buffer), store.maxBuffered, e, FlushOp);
    log := ran + [e];
    if store.reliable {
      NoneFailedNoDrop(log, store.maxBuffered);
    }
    if NoDrop(log, store.maxBuffered) {
      NothingDropped(log, store.maxBuffered);
    }
    if |old(store.buffer)| + NumRenders(ops) <= store.maxBuffered {
      ShortRunsDropNothing(log, ops, old(store.buffer), store.maxBuffered);
    }
    if store.reliable && old(store.Uncovered()) == {} && PrunesBy(ops, today) {
      NothingDropped(log, store.maxBuffered);
      SweptExactly(store.metas, AllMetas(old(store.metas), ops), today);
    }
  }

  predicate NoneFailed(log: seq<Served>) {
    forall i :: 0 <= i < |log| ==> !log[i].flushFailed
  }

  lemma FlushRecords(staged: seq<Record>, after: seq<Record>, max: nat, flushed: bool)
    requires if flushed then after == [] else after == Capped(staged, max)
    ensures Records(Served(staged, staged, after, !flushed, {}), FlushOp, max)
  {
  }

  /** One more operation is logged. */
  lemma LogGrows(log: seq<Served>, ops: seq<Op>, buffer: seq<Record>, max: nat, e: Served, op: Op)
    requires IsLog(log, ops, buffer, max) && Records(e, op, max)
    requires e.before == LastBuffer(log, buffer)
    ensures IsLog(log + [e], ops + [op], buffer, max)
    ensures AllDropped(log + [e], max) == AllDropped(log, max) + DroppedBy(e, max)
    ensures AllTorn(log + [e]) == AllTorn(log) + e.torn
    ensures NoneFailed(log) && !e.flushFailed ==> NoneFailed(log + [e])
  {
    hide Records, DroppedBy;
    var log', ops' := log + [e], ops + [op];
    assert log'[..|log|] == log;
    forall i | 0 <= i < |log'|
      ensures Records(log'[i], ops'[i], max)
      ensures log'[i].before == LastBuffer(log'[..i], buffer)
    {
      assert log'[..i] == log[..i];
      if i < |log| {
        assert log'[i] == log[i] && ops'[i] == ops[i];
      }
    }
  }

  lemma NoneFailedNoDrop(log: seq<Served>, max: nat)
    requires NoneFailed(log)
    ensures NoDrop(log, max)
  {
  }

  /** A run without drops drops no render. */
  lemma {:induction false} NothingDropped(log: seq<Served>, max: nat)
    requires NoDrop(log, max)
    ensures AllDropped(log, max) == {}
  {
    if log != [] {
      NothingDropped(log[..|log| - 1], max);
    }
  }

  /** The buffer never holds more than it started with and the records staged since. */
  lemma {:induction false} LogBound(log: seq<Served>, ops: seq<Op>, buffer: seq<Record>, max: nat, i: nat)
    requires IsLog(log, ops, buffer, max) && i < |log|
    ensures |log[i].after| <= |log[i].staged| <= |buffer| + NumRenders(ops[..i + 1])
  {
    assert Records(log[i], ops[i], max) && log[i].before == LastBuffer(log[..i], buffer);
    assert ops[..i + 1][..i] == ops[..i];
    if i > 0 {
      LogBound(log, ops, buffer, max, i - 1);
    }
  }

  /** In particular nothing is dropped while all renders of a run fit under the cap. */
  lemma ShortRunsDropNothing(log: seq<Served>, ops: seq<Op>, buffer: seq<Record>, max: nat)
    requires IsLog(log, ops + [FlushOp], buffer, max) && |buffer| + NumRenders(ops) <= max
    ensures NoDrop(log, max)
  {
    hide IsLog;
    var all := ops + [FlushOp];
    assert all[..|all| - 1] == ops;
    forall i | 0 <= i < |log| && log[i].flushFailed
      ensures |log[i].staged| <= max
    {
      LogLength(log, all, buffer, max);
      LogBound(log, all, buffer, max, i);
      RendersSoFar(all, i + 1);
    }
  }

  lemma LogLength(log: seq<Served>, ops: seq<Op>, buffer: seq<Record>, max: nat)
    requires IsLog(log, ops, buffer, max)
    ensures |log| == |ops|
  {
  }

  lemma {:induction false} RendersSoFar(ops: seq<Op>, i: nat)
    requires i <= |ops|
    ensures NumRenders(ops[..i]) <= NumRenders(ops)
  {
    if i == |ops| {
      assert ops[..i] == ops;
    } else {
      RendersSoFar(ops[..|ops| - 1], i);
      assert ops[..|ops| - 1][..i] == ops[..i];
    }
  }

  lemma SweptExactly(metas: map<string, Meta>, all: map<string, Meta>, today: int)
    requires DueGone(metas, all, today) && NothingDue(metas, today, {})
    ensures metas == NotDue(all, today)
  {
  }

  // ----- when a render is uncovered -----

  /**
   The cap uncovers a render exactly when every staged record that names its expiry is among the
   dropped ones and no index object names it.
   */
  lemma CapUncoversIff(
    metas: map<string, Meta>, buffer: seq<Record>, max: nat, index: map<ObjKey, seq<string>>, id: string)
    requires |buffer| > max && id in metas && Expires(metas, id) && id !in Missing(metas, buffer, index)
    ensures
      var n, date := |buffer| - max, metas[id].record.expiry.value;
      id in Missing(metas, Capped(buffer, max), index)
      <==> !Indexed(index, id, date) && Staged(buffer[..n], id, date) && !Staged(buffer[n..], id, date)
  {
    hide Indexed;
    var n, date := |buffer| - max, metas[id].record.expiry.value;
    assert buffer == buffer[..n] + buffer[n..];
    if Staged(buffer, id, date) {
      var r :| r in buffer && r.id == id && r.expiry == Some(date);
      assert r in buffer[..n] || r in buffer[n..];
    }
  }

  /**
   A meta put that fails after taking effect uncovers its render exactly when the render expires on
   a date under which it is neither staged nor indexed already.
   */
  lemma TornMetaUncoversIff(
    metas: map<string, Meta>, buffer: seq<Record>, index: map<ObjKey, seq<string>>, id: string, record: Record)
    ensures
      id in Missing(metas[id := Readable(record)], buffer, index)
      <==> record.expiry.Some? && !Staged(buffer, id, record.expiry.value) && !Indexed(index, id, record.expiry.value)
  {
    hide Staged, Indexed;
  }

  /** From an empty store, a render that expires and whose meta put is torn is stored and uncovered. */
  lemma TornMetaUncoversFirst()
    ensures
      var record := RecordOf("render", 0, "", None, None, 30);
      record.expiry == Some(30) && Missing(map[], [], map[]) == {}
      && Missing(map["render" := Readable(record)], [], map[]) == {"render"}
  {
    var record := RecordOf("render", 0, "", None, None, 30);
    TornMetaUncoversIff(map[], [], map[], "render", record);
    assert map[]["render" := Readable(record)] == map["render" := Readable(record)];
  }

  /** With a cap of one record, a failed flush of two leaves the older render uncovered. */
  lemma CapUncoversOlder(older: Record, newer: Record)
    requires older.expiry.Some? && newer.id != older.id
    ensures
      var metas := map[older.id := Readable(older), newer.id := Readable(newer)];
      Missing(metas, [older, newer], map[]) == {} && Missing(metas, Capped([older, newer], 1), map[]) == {older.id}
  {
    var metas := map[older.id := Readable(older), newer.id := Readable(newer)];
    assert older in [older, newer] && newer in [older, newer];
    assert Capped([older, newer], 1) == [newer];
    assert forall r :: r in [newer] <==> r == newer;
  }

  // ----- facts used above -----

  lemma OnStep(records: seq<Record>, i: nat)
    requires i < |records|
    ensures
      var groups, r := ByDate(records[..i]), records[i];
      ByDate(records[..i + 1]) == groups[r.date := (if r.date in groups then groups[r.date] else []) + [r]]
  {
    var r := records[i];
    assert records[..i + 1] == records[..i] + [r];
    ByDateSnoc(records[..i], r);
  }

  lemma DatesSnoc(s: seq<Record>, r: Record)
    ensures Dates(s + [r]) == Dates(s) + {r.date}
    ensures DueDates(s + [r]) == DueDates(s) + if r.expiry.Some? then {r.expiry.value} else {}
  {
    assert forall x :: x in s + [r] <==> x in s || x == r;
  }

  lemma OnSnoc(s: seq<Record>, r: Record, d: int)
    ensures On(s + [r], d) == On(s, d) + if r.date == d then [r] else []
    ensures ExpiringOn(s + [r], d) == ExpiringOn(s, d) + if r.expiry == Some(d) then [r.id] else []
  {
    assert (s + [r])[..|s|] == s;
  }

  lemma ByDateSnoc(s: seq<Record>, r: Record)
    ensures ByDate(s + [r]) == ByDate(s)[r.date := (if r.date in ByDate(s) then ByDate(s)[r.date] else []) + [r]]
  {
    hide On, Dates;
    DatesSnoc(s, r);
    var wanted := ByDate(s)[r.date := (if r.date in ByDate(s) then ByDate(s)[r.date] else []) + [r]];
    forall d | d in Dates(s + [r])
      ensures On(s + [r], d) == wanted[d]
    {
      OnSnoc(s, r, d);
      if d !in Dates(s) {
        OnNone(s, d);
      }
    }
    assert ByDate(s + [r]).Keys == wanted.Keys;
  }

  lemma {:induction false} OnNone(records: seq<Record>, date: int)
    requires date !in Dates(records)
    ensures On(records, date) == []
  {
    if records != [] {
      var n := |records| - 1;
      assert records[n] in records;
      assert records[n].date in Dates(records);
      OnNone(records[..n], date);
    }
  }

  lemma ExpiringStep(records: seq<Record>, i: nat)
    requires i < |records|
    ensures
      var groups, r := ByExpiry(records[..i]), records[i];
      ByExpiry(records[..i + 1]) ==
      if r.expiry.Some? then
        var d := r.expiry.value;
        groups[d := (if d in groups then groups[d] else []) + [r.id]]
      else groups
  {
    var r := records[i];
    assert records[..i + 1] == records[..i] + [r];
    ByExpirySnoc(records[..i], r);
  }

  lemma ByExpirySnoc(s: seq<Record>, r: Record)
    ensures
      ByExpiry(s + [r]) ==
      if r.expiry.Some? then
        var d := r.expiry.value;
        ByExpiry(s)[d := (if d in ByExpiry(s) then ByExpiry(s)[d] else []) + [r.id]]
      else ByExpiry(s)
  {
    hide ExpiringOn, DueDates;
    DatesSnoc(s, r);
    var groups := ByExpiry(s);
    var wanted := if r.expiry.Some? then
                    groups[r.expiry.value := (if r.expiry.value in groups then groups[r.expiry.value] else []) + [r.id]]
                  else groups;
    forall d | d in DueDates(s + [r])
      ensures ExpiringOn(s + [r], d) == wanted[d]
    {
      OnSnoc(s, r, d);
      if d !in DueDates(s) {
        ExpiringNone(s, d);
      }
    }
    assert ByExpiry(s + [r]).Keys == wanted.Keys;
  }

  lemma {:induction false} ExpiringNone(records: seq<Record>, date: int)
    requires date !in DueDates(records)
    ensures ExpiringOn(records, date) == []
  {
    if records != [] {
      var n := |records| - 1;
      assert records[n] in records;
      if records[n].expiry.Some? {
        assert records[n].expiry.value in DueDates(records);
      }
      ExpiringNone(records[..n], date);
    }
  }

  lemma FiledNone<T(!new)>(m: map<ObjKey, seq<T>>, parts: map<int, seq<T>>)
    ensures Filed(m, m, parts - parts.Keys)
  {
    assert parts - parts.Keys == map[];
  }

  /** One more part filed under a new key. */
  lemma FiledStep<T(!new)>(
    before: map<ObjKey, seq<T>>, mid: map<ObjKey, seq<T>>, after: map<ObjKey, seq<T>>, parts: map<int, seq<T>>,
    date: int, body: seq<T>)
    requires Filed(before, mid, parts) && date !in parts
    requires exists k :: k !in mid && k.date == date && after == mid[k := body]
    ensures Filed(before, after, parts[date := body])
  {
    var k :| k !in mid && k.date == date && after == mid[k := body];
    FiledCounts(mid, parts, k, date, body);
    var parts' := parts[date := body];
    forall d | d in parts'
      ensures NewFile(before, after, d)
    {
      if d == date {
        assert k in after && k !in before;
      } else {
        NewFileStays(before, mid, k, body, d);
      }
    }
    hide NewFile;
  }

  lemma NewFileStays<T>(before: map<ObjKey, seq<T>>, mid: map<ObjKey, seq<T>>, k: ObjKey, body: seq<T>, d: int)
    requires NewFile(before, mid, d)
    ensures NewFile(before, mid[k := body], d)
  {
    var j :| j in mid && j !in before && j.date == d;
    assert j in mid[k := body];
  }

  lemma FiledCounts<T>(mid: map<ObjKey, seq<T>>, parts: map<int, seq<T>>, k: ObjKey, date: int, body: seq<T>)
    requires k !in mid && date !in parts
    ensures |mid[k := body]| == |mid| + 1 && |parts[date := body]| == |parts| + 1
  {
    assert mid[k := body].Keys == mid.Keys + {k};
    assert parts[date := body].Keys == parts.Keys + {date};
  }

  lemma OneFewer<T>(m: map<int, T>, rest: set<int>, date: int)
    requires date in rest && rest <= m.Keys
    ensures m - (rest - {date}) == (m - rest)[date := m[date]]
  {
  }

  lemma OneMoreGone<T>(m: map<ObjKey, T>, keys: set<ObjKey>, rest: set<ObjKey>, key: ObjKey)
    requires key in rest && rest <= keys
    ensures (m - (keys - rest)) - {key} == m - (keys - (rest - {key}))
  {
  }

  lemma KeepRecent<T>(m: map<ObjKey, T>, cutoff: int)
    ensures m - (set k | k in m && k.date < cutoff) == map k | k in m && k.date >= cutoff :: m[k]
  {
  }

  lemma {:induction false} ExpiringOnFrom(records: seq<Record>, id: string, date: int)
    requires id in ExpiringOn(records, date)
    ensures Staged(records, id, date)
  {
    var n := |records| - 1;
    if records[n].id == id && records[n].expiry == Some(date) {
      assert records[n] in records;
    } else {
      ExpiringOnFrom(records[..n], id, date);
      var r :| r in records[..n] && r.id == id && r.expiry == Some(date);
      assert r in records;
    }
  }

  /** After a successful flush a render is indexed exactly if it was indexed or staged before. */
  lemma FlushIndexes(
    drained: seq<Record>, before: map<ObjKey, seq<string>>, after: map<ObjKey, seq<string>>, id: string, date: int)
    requires Filed(before, after, ByExpiry(drained))
    ensures Indexed(after, id, date) <==> Indexed(before, id, date) || Staged(drained, id, date)
  {
    if Staged(drained, id, date) {
      var r :| r in drained && r.id == id && r.expiry == Some(date);
      ExpiringOnMembers(drained, r);
      assert date in ByExpiry(drained) && NewFile(before, after, date);
      var k :| k in after && k !in before && k.date == date;
      assert after[k] == ExpiringOn(drained, date);
    }
    if Indexed(before, id, date) {
      var k :| k in before && k.date == date && id in before[k];
      assert k in after;
    }
    if Indexed(after, id, date) {
      var k :| k in after && k.date == date && id in after[k];
      if k !in before {
        ExpiringOnFrom(drained, id, date);
      }
    }
  }

  /** A successful flush covers exactly what was covered: what was staged is indexed. */
  lemma FlushCovers(
    metas: map<string, Meta>, drained: seq<Record>, before: map<ObjKey, seq<string>>, after: map<ObjKey, seq<string>>)
    requires Filed(before, after, ByExpiry(drained))
    ensures Missing(metas, [], after) == Missing(metas, drained, before)
  {
    hide Filed, Staged, Indexed;
    forall id | id in metas && Expires(metas, id)
      ensures id in Missing(metas, [], after) <==> id in Missing(metas, drained, before)
    {
      FlushIndexes(drained, before, after, id, metas[id].record.expiry.value);
      NothingStaged(id, metas[id].record.expiry.value);
    }
  }

  lemma NothingStaged(id: string, date: int)
    ensures !Staged([], id, date)
  {
  }

  lemma CoverGrows(
    metas: map<string, Meta>, buffer: seq<Record>, before: map<ObjKey, seq<string>>, after: map<ObjKey, seq<string>>)
    requires forall k :: k in before ==> k in after && after[k] == before[k]
    ensures Missing(metas, buffer, after) <= Missing(metas, buffer, before)
  {
    forall id | id in metas && Expires(metas, id) && Indexed(before, id, metas[id].record.expiry.value)
      ensures Indexed(after, id, metas[id].record.expiry.value)
    {
      var k :| k in before && k.date == metas[id].record.expiry.value && id in before[k];
      assert k in after;
    }
  }

  /** Dropping the oldest staged records uncovers at most their renders. */
  lemma DropUncovers(metas: map<string, Meta>, buffer: seq<Record>, n: nat, index: map<ObjKey, seq<string>>)
    requires n <= |buffer|
    ensures Missing(metas, buffer[n..], index) <= Missing(metas, buffer, index) + set r | r in buffer[..n] :: r.id
  {
    var dropped := set r | r in buffer[..n] :: r.id;
    forall id | id in metas && Expires(metas, id) && id !in dropped && Staged(buffer, id, metas[id].record.expiry.value)
      ensures Staged(buffer[n..], id, metas[id].record.expiry.value)
    {
      var r :| r in buffer && r.id == id && r.expiry == Some(metas[id].record.expiry.value);
      assert buffer == buffer[..n] + buffer[n..];
      assert r !in buffer[..n];
    }
  }

  /** Staging a stored record covers its render and no other. */
  lemma StageCovers(metas: map<string, Meta>, buffer: seq<Record>, index: map<ObjKey, seq<string>>, record: Record)
    requires record.id in metas && metas[record.id] == Readable(record)
    ensures Missing(metas, buffer + [record], index) == Missing(metas, buffer, index) - {record.id}
  {
    hide Indexed;
    assert forall r :: r in buffer + [record] <==> r in buffer || r == record;
    forall id | id in metas && Expires(metas, id) && id != record.id
      ensures
        Staged(buffer + [record], id, metas[id].record.expiry.value)
        <==> Staged(buffer, id, metas[id].record.expiry.value)
    {
    }
  }

  /** A new meta concerns its own render only. */
  lemma OneMeta(
    metas: map<string, Meta>, buffer: seq<Record>, index: map<ObjKey, seq<string>>, id: string, record: Record)
    ensures
      var before, after := Missing(metas, buffer, index), Missing(metas[id := Readable(record)], buffer, index);
      after - {id} == before - {id} && after <= before + {id}
  {
    hide Staged, Indexed;
  }

  lemma FewerMetas(metas: map<string, Meta>, id: string, buffer: seq<Record>, index: map<ObjKey, seq<string>>)
    ensures Missing(metas - {id}, buffer, index) <= Missing(metas, buffer, index)
  {
    hide Staged, Indexed;
  }

  /** An index object may go once every due render it lists is gone, staged or excepted. */
  lemma IndexDropCovers(
    metas: map<string, Meta>, buffer: seq<Record>, index: map<ObjKey, seq<string>>, except: set<string>, key: ObjKey,
    today: int)
    requires Missing(metas, buffer, index) <= except && DueAccounted(metas, buffer, today, except) && key.date <= today
    ensures Missing(metas, buffer, index - {key}) <= except
  {
    hide Staged, Indexed;
    forall id | id in Missing(metas, buffer, index - {key})
      ensures id in except
    {
      if Indexed(index, id, metas[id].record.expiry.value) {
        IndexedElsewhere(index, key, id, metas[id].record.expiry.value);
      }
    }
  }

  lemma IndexedElsewhere(index: map<ObjKey, seq<string>>, key: ObjKey, id: string, date: int)
    requires Indexed(index, id, date)
    ensures Indexed(index - {key}, id, date) || (key in index && key.date == date)
  {
    var k :| k in index && k.date == date && id in index[k];
    if k != key {
      assert k in index - {key};
    }
  }

  /** Once the due renders are deleted, those still due are staged or were uncovered. */
  lemma DueLeavesStaged(metas: map<string, Meta>, buffer: seq<Record>, index: map<ObjKey, seq<string>>, today: int)
    ensures DueAccounted(metas - DueIds(metas, index, today), buffer, today, Missing(metas, buffer, index))
  {
    hide Staged;
    forall id | id in metas && Expires(metas, id) && metas[id].record.expiry.value <= today
                && Indexed(index, id, metas[id].record.expiry.value)
      ensures id in DueIds(metas, index, today)
    {
      var k :| k in index && k.date == metas[id].record.expiry.value && id in index[k];
      assert k in DueKeys(index, today) && IsDue(metas, id, today);
    }
  }
}
