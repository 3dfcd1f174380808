/** The migration store: rows with optimistic versions. */
module Store {
  import opened Text
  import opened Records

  datatype Status = Preview | Applying | AwaitingNSChange | Verifying | Complete | Failed

  /** What is fixed when a migration is created; `expiresAt` None never expires. */
  datatype Terms = Terms(domain: string, records: seq<Record>, token: string, expiresAt: Option<nat>)

  /** A stored migration; `report` stands for the texts and results that handlers attach. */
  datatype Row = Row(status: Status, version: int, terms: Terms, nameservers: seq<string>, report: string)

  datatype Error = MissingId | NotFound | RowExpired | VersionMismatch | AlreadyExists

  datatype Reply<T> = Ok(value: T) | Err(error: Error)

  predicate ExpiredAt(t: Terms, now: nat) {
    t.expiresAt.Some? && t.expiresAt.value < now
  }

  // ---------------------------------------------------------------- one row, atomically

  function CreateRow(cur: Option<Row>, m: Row): Reply<Row> {
    if cur.Some? then Err(AlreadyExists) else Ok(if m.version == 0 then m.(version := 1) else m)
  }

  function ReadRow(cur: Option<Row>, now: nat): Reply<Row> {
    if cur.None? then Err(NotFound)
    else if ExpiredAt(cur.value.terms, now) then Err(RowExpired)
    else Ok(cur.value)
  }

  function UpdateRow(cur: Option<Row>, m: Row): Reply<Row> {
    if cur.None? then Err(NotFound)
    else if cur.value.version + 1 != m.version then Err(VersionMismatch)
    else Ok(m)
  }

  // ---------------------------------------------------------------- the store

  /** The state directory: one data file for each migration. */
  class JsonStore {
    var files: map<string, Row>

    function At(id: string): Option<Row>
      reads this
    {
      if id in files then Some(files[id]) else None
    }

    constructor ()
      ensures files == map[]
    {
      files := map[];
    }

    method Create(id: string, m: Row) returns (r: Reply<Row>)
      modifies this
      ensures r == Err(MissingId) <==> id == ""
      ensures r == Err(AlreadyExists) <==> id != "" && id in old(files)
      ensures r.Err? ==> r.error in {MissingId, AlreadyExists} && files == old(files)
      ensures r.Ok? ==>
        r.value == m.(version := if m.version == 0 then 1 else m.version) && files == old(files)[id := r.value]
    {
      if id == "" {
        return Err(MissingId);
      }
      r := CreateRow(At(id), m);
      if r.Ok? {
        files := files[id := r.value];
      }
    }

    method Get(id: string, now: nat) returns (r: Reply<Row>)
      ensures r == Err(NotFound) <==> id !in files
      ensures r == Err(RowExpired) <==>
        id in files && files[id].terms.expiresAt.Some? && files[id].terms.expiresAt.value < now
      ensures r.Ok? ==> id in files && r.value == files[id]
      ensures r.Err? ==> r.error in {NotFound, RowExpired}
    {
      r := ReadRow(At(id), now);
    }

    method Update(id: string, m: Row) returns (r: Reply<Row>)
      modifies this
      ensures r == Err(MissingId) <==> id == ""
      ensures r == Err(NotFound) <==> id != "" && id !in old(files)
      ensures r == Err(VersionMismatch) <==> id != "" && id in old(files) && m.version != old(files)[id].version + 1
      ensures r.Err? ==> r.error in {MissingId, NotFound, VersionMismatch} && files == old(files)
      ensures r.Ok? ==> r.value == m && files == old(files)[id := m]
    {
      if id == "" {
        return Err(MissingId);
      }
      r := UpdateRow(At(id), m);
      if r.Ok? {
        files := files[id := m];
      }
    }

    method Delete(id: string)
      modifies this
      ensures files == old(files) - {id}
    {
      files := files - {id};
    }

    /** Removes exactly the expired rows and counts them. */
    method SweepExpired(before: nat) returns (count: nat)
      modifies this
      ensures files == map id | id in old(files) && !ExpiredAt(old(files)[id].terms, before) :: old(files)[id]
      ensures count == |old(files)| - |files|
    {
      var entries := files.Keys;
      count := 0;
      while entries != {}
        invariant entries <= old(files).Keys
        invariant files == map id | id in old(files) && (id in entries || !ExpiredAt(old(files)[id].terms, before)) ::
          old(files)[id]
        invariant count == |old(files)| - |files|
        decreases |entries|
      {
        var id :| id in entries;
        entries := entries - {id};
        var row := files[id];
        if row.terms.expiresAt.None? || !(row.terms.expiresAt.value < before) {
          continue;
        }
        assert |files.Keys - {id}| == |files.Keys| - 1;
        assert (files - {id}).Keys == files.Keys - {id};
        Delete(id);
        count := count + 1;
      }
    }
  }
}
