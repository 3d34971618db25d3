/** The registry table (platform/backend/app/verification/repository.py): rows
    by id, read through limited queries whose order the source leaves open. */
module Repository {
  import opened Wrappers
  import opened Records
  import opened Finalize

  type ServerId = nat

  function Matching(rows: map<ServerId, Record>, p: Record -> bool): set<ServerId> {
    set id | id in rows && p(rows[id])
  }

  function FromSource(url: string): Record -> bool {
    (r: Record) => r.sourceUrl == url
  }

  function WithStatus(statuses: set<ServerStatus>): Record -> bool {
    (r: Record) => r.status in statuses
  }

  function ExpiredAt(now: int): Record -> bool {
    (r: Record) => Expired(r, now)
  }

  predicate Distinct(ids: seq<ServerId>) {
    forall i, j :: 0 <= i < j < |ids| ==> ids[i] != ids[j]
  }

  /** A `SELECT ... WHERE p LIMIT limit` without an order: distinct matching
      rows, and all of them unless the limit was reached. */
  ghost predicate Listing(rows: map<ServerId, Record>, p: Record -> bool, limit: nat, ids: seq<ServerId>) {
    && Distinct(ids)
    && |ids| <= limit
    && (forall id :: id in ids ==> id in Matching(rows, p))
    && (|ids| < limit ==> forall id :: id in Matching(rows, p) ==> id in ids)
  }

  predicate UniqueSources(rows: map<ServerId, Record>) {
    forall i, j :: i in rows && j in rows && rows[i].sourceUrl == rows[j].sourceUrl ==> i == j
  }

  /** The table after an update of one row; an unknown id changes nothing. */
  function Updated(rows: map<ServerId, Record>, id: ServerId, p: Patch): map<ServerId, Record> {
    if id in rows then rows[id := Apply(rows[id], p)] else rows
  }

  class VerificationRepository {
    var rows: map<ServerId, Record>

    constructor ()
      ensures rows == map[]
    {
      rows := map[];
    }

    /** Inserts, unless a row with this source URL exists: then that row is the
        answer and nothing changes. */
    method Create(id: ServerId, record: Record) returns (persisted: ServerId)
      requires id !in rows
      requires UniqueSources(rows)
      modifies this
      ensures persisted in rows && rows[persisted].sourceUrl == record.sourceUrl
      ensures persisted == id <==> forall i :: i in old(rows) ==> old(rows)[i].sourceUrl != record.sourceUrl
      ensures rows == if persisted == id then old(rows)[id := record] else old(rows)
      ensures UniqueSources(rows)
    {
      var existing := Select(FromSource(record.sourceUrl), 1);
      if existing != [] {
        assert existing[0] in existing;
        return existing[0];
      }
      assert forall i :: i in rows && rows[i].sourceUrl == record.sourceUrl
                         ==> i in Matching(rows, FromSource(record.sourceUrl));
      rows := rows[id := record];
      return id;
    }

    method Update(id: ServerId, p: Patch) returns (row: Option<Record>)
      modifies this
      ensures rows == Updated(old(rows), id, p)
      ensures row == if id in old(rows) then Some(rows[id]) else None
    {
      if id !in rows {
        return None;
      }
      rows := rows[id := Apply(rows[id], p)];
      return Some(rows[id]);
    }

    /** The limited query behind every read. */
    method Select(p: Record -> bool, limit: nat) returns (ids: seq<ServerId>)
      ensures Listing(rows, p, limit, ids)
    {
      ids := [];
      var rest := Matching(rows, p);
      while rest != {} && |ids| < limit
        invariant rest <= Matching(rows, p)
        invariant forall id :: id in ids ==> id in Matching(rows, p) && id !in rest
        invariant forall id :: id in Matching(rows, p) ==> id in ids || id in rest
        invariant Distinct(ids) && |ids| <= limit
        decreases rest
      {
        var id :| id in rest;
        ids := ids + [id];
        rest := rest - {id};
      }
    }

    method ListStatus(statuses: set<ServerStatus>, limit: nat) returns (ids: seq<ServerId>)
      ensures Listing(rows, WithStatus(statuses), limit, ids)
    {
      ids := Select(WithStatus(statuses), limit);
    }

    method ListExpiredTtl(now: int, limit: nat) returns (ids: seq<ServerId>)
      ensures Listing(rows, ExpiredAt(now), limit, ids)
    {
      ids := Select(ExpiredAt(now), limit);
    }
  }
}
