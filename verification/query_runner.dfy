/**
 * The query runner `update` takes from the data source: a connection that runs
 * one transaction. Starting the transaction remembers the rows as they are;
 * committing keeps what was written since, rolling back puts the remembered rows
 * back. Releasing hands the connection back and is counted, so that a caller's
 * contract can say how often it happened.
 */
module Transactions {
  import opened Wrappers
  import opened Uuid
  import opened Entities
  import opened Store

  datatype Phase = Idle | Active | Committed | RolledBack

  class QueryRunner {
    const db: Database
    var connected: bool
    var phase: Phase
    /** The rows at `startTransaction`, restored by a rollback. */
    var snapshot: seq<Row>
    var releases: nat

    constructor (db: Database)
      ensures this.db == db
      ensures !connected && phase == Idle && releases == 0
    {
      this.db := db;
      connected := false;
      phase := Idle;
      snapshot := [];
      releases := 0;
    }

    method Connect(fault: Option<DbError>) returns (err: Option<DbError>)
      modifies this
      ensures err == fault
      ensures connected == fault.None?
      ensures phase == old(phase) && snapshot == old(snapshot) && releases == old(releases)
    {
      err := fault;
      connected := fault.None?;
    }

    method StartTransaction(fault: Option<DbError>) returns (err: Option<DbError>)
      requires connected && phase == Idle
      modifies this
      ensures err == fault
      ensures connected && releases == old(releases)
      ensures fault.None? ==> phase == Active && snapshot == db.rows
      ensures fault.Some? ==> phase == Idle && snapshot == old(snapshot)
    {
      err := fault;
      if fault.None? {
        phase := Active;
        snapshot := db.rows;
      }
    }

    /** `manager.delete(ProductImage, { product: { id } })` inside the transaction. */
    method DeleteImages(id: string, fault: Option<DbError>) returns (err: Option<DbError>)
      requires phase == Active && db.Valid()
      modifies db
      ensures db.Valid()
      ensures err == fault
      ensures db.rows == if fault.Some? then old(db.rows) else DeleteImagesOf(old(db.rows), id)
    {
      err := db.DeleteImages(id, fault);
    }

    /** `manager.save(product)` inside the transaction. */
    method Save(p: Product, fault: Option<DbError>) returns (err: Option<DbError>)
      requires phase == Active && db.Valid() && IsUuid(p.id)
      modifies db
      ensures db.Valid()
      ensures fault.Some? ==> err == fault && db.rows == old(db.rows)
      ensures fault.None? && Saved(old(db.rows), p).Ok? ==> err.None? && db.rows == Saved(old(db.rows), p).value
      ensures fault.None? && Saved(old(db.rows), p).Err? ==> err == Some(Saved(old(db.rows), p).error) && db.rows == old(db.rows)
    {
      err := db.Save(p, fault);
    }

    /** A failed commit leaves the transaction open, to be rolled back. */
    method CommitTransaction(fault: Option<DbError>) returns (err: Option<DbError>)
      requires phase == Active
      modifies this
      ensures err == fault
      ensures phase == if fault.None? then Committed else Active
      ensures connected == old(connected) && snapshot == old(snapshot) && releases == old(releases)
    {
      err := fault;
      if fault.None? {
        phase := Committed;
      }
    }

    method RollbackTransaction()
      requires phase == Active && ValidRows(snapshot)
      modifies this, db
      ensures db.Valid() && db.rows == old(snapshot)
      ensures phase == RolledBack
      ensures connected == old(connected) && snapshot == old(snapshot) && releases == old(releases)
    {
      db.rows := snapshot;
      phase := RolledBack;
    }

    method Release()
      modifies this
      ensures !connected && releases == old(releases) + 1
      ensures phase == old(phase) && snapshot == old(snapshot)
    {
      connected := false;
      releases := releases + 1;
    }
  }
}
