/** The worker's code path, step by step, proved to be one undisturbed pass of the crash machine. */
module IndexerProcess {
  import opened Prelude
  import opened CanonicalIndex
  import opened IndexerPlan
  import opened IndexerWorker

  class Worker {
    const cfg: Config
    const index: OpenSearchIndex<IndexDocument>
    var vectors: Cache
    var letters: seq<nat>
    var announcements: seq<Announcement>
    var checkpoint: nat

    // Between records nothing is in flight.
    ghost function State(): WorkerState
      reads this, index
    {
      WorkerState(index.rows, letters, announcements, checkpoint, Fetched, vectors)
    }

    constructor (cfg: Config)
      ensures State() == INITIAL && this.cfg == cfg && fresh(index)
    {
      this.cfg := cfg;
      index := new OpenSearchIndex<IndexDocument>();
      vectors, letters, announcements, checkpoint := map[], [], [], 0;
    }

    method EmbedOnce(s: Normalized) returns (vector: seq<real>)
      requires Complete(s.record)
      modifies this`vectors
      ensures vector == Vector(cfg, old(vectors), s)
      ensures vectors == old(vectors)[(DocumentIdOf(s), ContentDigest(s)) := vector]
    {
      var key := (DocumentIdOf(s), ContentDigest(s));
      if key in vectors {
        vector := vectors[key];
        assert vectors[key := vector] == vectors;
        return;
      }
      vector := cfg.embed(s.record.content.value);
      vectors := vectors[key := vector];
    }

    method ProcessDelete(s: Normalized) returns (r: Result<()>)
      requires Complete(s.record) && s.operation.Delete?
      modifies index
      ensures var job := JobFor(cfg, s, []);
        && index.rows == (if job.Ok? then Written(old(index.rows), job.value.write) else old(index.rows))
        && (r.Ok? <==> job.Ok? && Accepted(old(index.rows), job.value.write))
        && (job.Ok? ==> job.value.owed == None)
    {
      var document := DocumentFor(cfg, s, seq(VECTOR_DIMENSIONS, _ => 0.0));
      if document.Raise? {
        return Raise(document.error);
      }
      var d := document.value;
      var validity := d.validity.(isDeleted := true, validTo := Some(s.occurredAt));
      d := d.(title := "Deleted context", content := "Deleted", keywords := [], validity := validity);
      r := index.CanonicalWrite(Write(cfg.tenant, d.chunkId, s.orderingVersion, d));
    }

    method ProcessUpsert(s: Normalized) returns (r: Result<Option<Projection>>)
      requires Complete(s.record) && s.operation.Upsert?
      modifies index, this`vectors
      ensures vectors == CacheAfter(cfg, old(vectors), s)
      ensures var job := JobFor(cfg, s, Vector(cfg, old(vectors), s));
        && index.rows == (if job.Ok? then Written(old(index.rows), job.value.write) else old(index.rows))
        && (r.Ok? <==> job.Ok? && Accepted(old(index.rows), job.value.write))
        && (r.Ok? ==> r.value == job.value.owed)
    {
      var vector := EmbedOnce(s);
      var document := DocumentFor(cfg, s, vector);
      if document.Raise? {
        return Raise(document.error);
      }
      var stamp := ShowcaseMetadata(s.record);
      if stamp.Raise? {
        return Raise(stamp.error);
      }
      var d := document.value;
      var written := index.CanonicalWrite(Write(cfg.tenant, d.chunkId, s.orderingVersion, d));
      if written.Raise? {
        return Raise(written.error);
      }
      if stamp.value.None? {
        return Ok(None);
      }
      return Ok(Some(Projection(s, d.documentId, stamp.value.value)));
    }

    // The stage the crash machine is in once the index write has been tried.
    ghost function Tried(event: RawEvent): WorkerState
      reads this, index
    {
      Advance(Prepared(cfg, event, State()), WriteIndex)
    }

    method Process(event: RawEvent) returns (r: Result<Option<Projection>>)
      modifies index, this`vectors
      ensures State() == old(Tried(event)).(stage := Fetched)
      ensures old(Tried(event)).stage == match r case Raise(_) => Failed case Ok(owed) => Acknowledged(owed)
    {
      var parsed := Parse(event);
      if parsed.Raise? {
        return Raise(parsed.error);
      }
      var s := parsed.value;
      if s.operation.Delete? {
        var deleted := ProcessDelete(s);
        assert JobFor(cfg, s, old(Vector(cfg, vectors, s))) == JobFor(cfg, s, []);
        r := match deleted case Raise(e) => Raise(e) case Ok(_) => Ok(None);
      } else {
        r := ProcessUpsert(s);
      }
    }

    // Without a crash, one call is one whole pass of the machine; it raises exactly when an
    // acknowledged record owes a bundle that cannot be built at this moment, and then nothing but
    // the index write has happened and the record stays uncommitted.
    method ProcessRecord(event: RawEvent, now: int) returns (r: Result<()>)
      modifies this, index
      ensures State().(cache := map[]) == old(Finish(Prepared(cfg, event, State()), now)).(cache := map[])
      ensures r.Ok? ==> State() == old(Finish(Prepared(cfg, event, State()), now))
      ensures r.Ok? <==> checkpoint == old(checkpoint) + 1
      ensures r.Raise? <==>
        (old(Tried(event)).stage.Acknowledged? && old(Tried(event)).stage.owed.Some?
         && !BundleValid(old(Tried(event)).stage.owed.value, now))
    {
      var projection := Process(event);
      if projection.Raise? {
        letters := letters + [checkpoint];
        checkpoint := checkpoint + 1;
        return Ok(());
      }
      if projection.value.Some? {
        if !BundleValid(projection.value.value, now) {
          return Raise(ValueError);
        }
        announcements := announcements + [Announcement(checkpoint, projection.value.value, now)];
      }
      checkpoint := checkpoint + 1;
      return Ok(());
    }
  }
}
