/** The emitter's objects, proved to perform the actions of EmitterModel. */
module EmitterClasses {
  import opened Records
  import opened EmitterModel
  import opened Codecs
  import F = TraceFiles
  import P = Pipeline

  /** A bounded queue of records; a record that finds it full is counted and refused. */
  class RingBuffer {
    var buf: seq<Record>
    const capacity: nat
    var dropped: nat
    ghost const owner: Thread          // the thread that puts into it

    constructor (capacity: nat, ghost owner: Thread)
      ensures View() == Ring([], 0) && this.capacity == capacity && this.owner == owner
    {
      this.buf, this.capacity, this.dropped, this.owner := [], capacity, 0, owner;
    }

    function View(): Ring
      reads this
    {
      Ring(buf, dropped)
    }

    method Put(item: Record) returns (ok: bool)
      modifies this
      ensures ok <==> old(|buf|) < capacity
      ensures View() == RingPut(capacity, old(View()), item)
    {
      if |buf| >= capacity {
        dropped := dropped + 1;
        return false;
      }
      buf := buf + [item];
      return true;
    }

    method Drain() returns (items: seq<Record>)
      modifies this
      ensures items == old(buf) && View() == Ring([], old(dropped))
    {
      items, buf := buf, [];
    }
  }

  /** One worker's numbered output files, on a disk that held none of them before. */
  class OutputFile {
    const base: string
    const rotateBytes: int
    var written: int
    var seqNo: nat
    var disk: map<string, string>
    ghost var batches: seq<F.Batch>      // everything asked for so far

    ghost function Files(): seq<seq<F.Batch>>
      reads this
    {
      F.Layout(batches, rotateBytes)
    }

    /** The disk holds the layout of the batches, the last file open. */
    ghost predicate Valid()
      reads this
    {
      && seqNo == |Files()|
      && written == |F.Data(Files()[seqNo - 1])|
      && F.Stored(disk, base, Files())
    }

    constructor (base: string, rotateBytes: int)
      ensures Valid() && batches == [] && this.base == base && this.rotateBytes == rotateBytes
    {
      this.base, this.rotateBytes := base, rotateBytes;
      written, seqNo, disk, batches := 0, 1, map[F.FileName(base, 1) := ""], [];
      new;
      F.OpenStores(map[], base, []);
      assert [] + [[]] == Files();
    }

    method WriteBatch(lines: F.Batch)
      requires Valid()
      modifies this
      ensures Valid() && batches == old(batches) + [lines]
    {
      ghost var before := Files();
      assert (batches + [lines])[..|batches|] == batches;
      batches := batches + [lines];
      if lines == [] {
        return;
      }
      var data := F.JoinLines(lines) + "\n";
      F.JoinedThenEnded(lines);
      F.AppendStores(disk, base, before, lines);
      ghost var open := before[seqNo - 1] + [lines];
      assert open[..|open| - 1] == before[seqNo - 1];
      var name := F.FileName(base, seqNo);
      disk := disk[name := disk[name] + data];
      written := written + |data|;
      ghost var files := before[..seqNo - 1] + [open];
      assert Files() == files + (if |F.Data(open)| >= rotateBytes then [[]] else []);
      if written >= rotateBytes {
        F.OpenStores(disk, base, files);
        Rotate();
      } else {
        assert files + [] == files;
      }
    }

    /** Close the current file and open the next; a file that exists is appended to. */
    method Rotate()
      modifies this`seqNo, this`written, this`disk
      ensures seqNo == old(seqNo) + 1 && written == 0
      ensures var next := F.FileName(base, seqNo);
        disk == old(disk)[next := if next in old(disk) then old(disk)[next] else ""]
    {
      seqNo := seqNo + 1;
      written := 0;
      var next := F.FileName(base, seqNo);
      disk := disk[next := if next in disk then disk[next] else ""];
    }
  }

  /** The process-wide emitter: one ring per thread, a live map and an output file. */
  class Emitter {
    const cfg: Config
    const enabled: bool
    const codec: Codec
    const outfile: OutputFile
    var buffers: seq<RingBuffer>
    var tls: map<Thread, RingBuffer>
    var live: map<TransferId, Meta>
    var pending: int
    var trigger: bool
    var droppedTotal: nat
    ghost var repr: set<RingBuffer>
    ghost var rings: map<Thread, Ring>     // what the rings hold
    ghost var order: seq<Thread>           // whose ring each buffer is

    /** Every thread's ring is its own object and holds what `rings` says. */
    ghost predicate Valid()
      reads `buffers, `tls, `repr, `rings, `order, repr
    {
      && rings.Keys == tls.Keys
      && (forall th :: th in tls ==> tls[th] in repr && tls[th].owner == th && tls[th].capacity == cfg.capacity)
      && (forall th :: th in tls ==> rings[th] == tls[th].View())
      && |order| == |buffers|
      && (forall i :: 0 <= i < |order| ==> order[i] in tls && tls[order[i]] == buffers[i])
      && P.Distinct(order)
    }

    /** The shared memory of the step system. */
    ghost function View(): EmitterState
      reads this
    {
      EmitterState(rings, order, live, pending, trigger, droppedTotal)
    }

    constructor (cfg: Config, enabled: bool, codec: Codec, base: string, rotateBytes: int)
      ensures Valid() && View() == InitialState()
      ensures outfile.Valid() && outfile.batches == []
      ensures this.cfg == cfg && this.enabled == enabled && this.codec == codec
    {
      this.cfg, this.enabled, this.codec := cfg, enabled, codec;
      outfile := new OutputFile(base, rotateBytes);
      buffers, tls, live, pending, trigger, droppedTotal := [], map[], map[], 0, false, 0;
      repr, rings, order := {}, map[], [];
    }

    /** The calling thread's ring, created and registered on first use. */
    method GetBuf(th: Thread) returns (buf: RingBuffer)
      requires Valid()
      modifies `buffers, `tls, `repr, `rings, `order
      ensures Valid() && th in tls && buf == tls[th] && fresh(repr - old(repr))
      ensures rings == old(rings)[th := RingOf(old(View()), th)]
      ensures order == if th in old(rings) then old(order) else old(order) + [th]
    {
      if th in tls {
        return tls[th];
      }
      buf := new RingBuffer(cfg.capacity, th);
      assert th !in order;
      tls := tls[th := buf];
      buffers := buffers + [buf];
      repr, rings, order := repr + {buf}, rings[th := Ring([], 0)], order + [th];
    }

    /** Put a record into a registered ring. */
    method PutInto(buf: RingBuffer, ghost th: Thread, stamped: Record, ghost was: map<Thread, Ring>) returns (ok: bool)
      requires Valid() && th in tls && buf == tls[th] && rings == was[th := rings[th]]
      modifies `rings, buf
      ensures Valid() && ok == (|old(rings[th]).items| < cfg.capacity)
      ensures rings == was[th := RingPut(cfg.capacity, old(rings[th]), stamped)]
    {
      assert forall t :: t in tls && t != th ==> tls[t] != buf;
      ok := buf.Put(stamped);
      rings := rings[th := RingPut(cfg.capacity, rings[th], stamped)];
    }

    /** Put a record into the calling thread's ring. */
    method Offer(th: Thread, stamped: Record) returns (ok: bool)
      requires Valid()
      modifies `buffers, `tls, `repr, `rings, `order, repr
      ensures Valid() && fresh(repr - old(repr))
      ensures ok <==> HasRoom(cfg, old(View()), th)
      ensures View() == Offered(cfg, old(View()), th, stamped)
    {
      ghost var was := rings;
      var buf := GetBuf(th);
      ok := PutInto(buf, th, stamped, was);
    }

    /** Enqueue a record; nothing at all when disabled. */
    method Event(th: Thread, record: Record)
      requires Valid()
      modifies this, repr
      ensures Valid() && fresh(repr - old(repr))
      ensures View() == if enabled then Enqueue(cfg, old(View()), th, Stamp(cfg, record)) else old(View())
    {
      if !enabled {
        return;
      }
      var ok := Offer(th, Stamp(cfg, record));
      if !ok {
        droppedTotal := droppedTotal + 1;
      } else {
        pending := pending + RECORD_ESTIMATE;
        if pending >= cfg.flushBytes {
          pending := 0;
          trigger := true;
        }
      }
    }

    /** A metadata record of a timed body, once the body has ended either way. */
    method Metadata(th: Thread, subtype: Subtype, sampled: bool, ts: int)
      requires Valid()
      modifies this, repr
      ensures Valid() && fresh(repr - old(repr))
      ensures View() == if enabled then Noted(cfg, old(View()), th, subtype, sampled, ts) else old(View())
    {
      if enabled && sampled {
        Event(th, Bare(Kind.Metadata, subtype, ts));
      }
    }

    /** A start: sampled away, or enqueued and then registered as live, whether or not the ring took it. */
    method TransferStart(th: Thread, tid: TransferId, meta: Meta, request: Option<RequestId>, sampled: bool, ts: int)
      requires Valid()
      modifies this, repr
      ensures Valid() && fresh(repr - old(repr))
      ensures View() == StartIfSampled(cfg, enabled, old(View()), th, tid, meta, request, sampled, ts)
    {
      if !enabled || !sampled {
        return;
      }
      Event(th, StartRecord(tid, meta, request, ts));
      live := live[tid := meta];
    }

    /** An end or cancel: taken off the live map and then enqueued, or dropped if the id is not live. */
    method TransferEnd(th: Thread, tid: TransferId, request: Option<RequestId>, cancelled: bool, ts: int)
      requires Valid()
      modifies this, repr
      ensures Valid() && fresh(repr - old(repr))
      ensures View() == EndIfLive(cfg, enabled, old(View()), th, tid, request, cancelled, ts)
    {
      if !enabled || tid !in live {
        return;
      }
      var meta := live[tid];
      live := live - {tid};
      Event(th, EndRecord(tid, meta, request, ts, cancelled));
    }

    /** Empty one ring and serialise what it held. */
    method DrainOne(i: nat) returns (lines: seq<string>)
      requires Valid() && i < |buffers|
      modifies `rings, repr
      ensures Valid() && View() == EmptyRing(old(View()), order[i])
      ensures lines == LinesOf(codec, P.Tagged(order[i], old(RingOf(View(), order[i]).items)))
    {
      ghost var th := order[i];
      ghost var items := P.Tagged(th, rings[th].items);
      var drained := buffers[i].Drain();
      rings := rings[th := rings[th].(items := [])];
      lines := [];
      var j := 0;
      while j < |drained|
        invariant 0 <= j <= |drained| && lines == LinesOf(codec, items[..j])
      {
        var line := codec.enc(drained[j]);
        assert items[..j + 1][..j] == items[..j];
        if line.Some? {
          lines := lines + [line.value];
        }
        j := j + 1;
      }
      assert items[..j] == items;
    }

    /** Drain every listed ring in turn and write what serialises as one batch. */
    method FlushOnce()
      requires Valid() && outfile.Valid()
      modifies `rings, repr, outfile
      ensures Valid() && outfile.Valid()
      ensures View() == Emptied(old(View()), order)
      ensures outfile.batches == OneMore(old(outfile.batches), LinesOf(codec, Gathered(old(View()), order)))
    {
      ghost var was := View();
      var lines: seq<string> := [];
      var i := 0;
      while i < |buffers|
        invariant 0 <= i <= |buffers| && Valid() && outfile.Valid() && outfile.batches == old(outfile.batches)
        invariant View() == Emptied(was, order[..i])
        invariant lines == LinesOf(codec, Gathered(was, order[..i]))
      {
        GatheredNext(codec, was, order, i);
        var more := DrainOne(i);
        lines := lines + more;
        i := i + 1;
      }
      assert order[..i] == order;
      if lines != [] {
        outfile.WriteBatch(lines);
      }
    }

    /** One turn of the flusher's loop: the signal and the estimate are reset before the drain. */
    method FlushTurn()
      requires Valid() && outfile.Valid()
      modifies `rings, `trigger, `pending, repr, outfile
      ensures Valid() && outfile.Valid()
      ensures View() == Emptied(old(View()).(trigger := false, pending := 0), order)
      ensures outfile.batches == OneMore(old(outfile.batches), LinesOf(codec, Gathered(old(View()), order)))
    {
      ghost var was := View();
      trigger := false;
      pending := 0;
      GatheredIgnoresCounters(was, View(), order);
      FlushOnce();
    }

    /** The flusher's thread, with nothing interleaved: `turns` turns until it is told to stop, then the final drain. */
    method FlusherLoop(turns: nat)
      requires Valid() && outfile.Valid()
      requires forall th :: th in rings ==> th in order      // every ring is listed
      modifies `rings, `trigger, `pending, repr, outfile
      ensures Valid() && outfile.Valid()
      ensures Flushed(codec, old(View()), old(outfile.batches), View(), outfile.batches, true)
    {
      ghost var was, before := View(), outfile.batches;
      var i := 0;
      while i < turns
        invariant 0 <= i <= turns && Valid() && outfile.Valid()
        invariant Flushed(codec, was, before, View(), outfile.batches, i > 0)
      {
        FlushAgain(codec, was, before, View().(trigger := false, pending := 0), outfile.batches, i > 0);
        GatheredIgnoresCounters(View(), View().(trigger := false, pending := 0), order);
        FlushTurn();
        i := i + 1;
      }
      FlushAgain(codec, was, before, View(), outfile.batches, i > 0);
      FlushOnce();
    }
  }
}
