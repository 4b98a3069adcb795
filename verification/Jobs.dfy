/** The jobs table and its writers (src/models/jobs.ts). */
module Jobs {
  import opened Wrappers

  datatype Status = Created | Published | Done | Error

  // The columns the job protocol depends on.
  datatype Job = Job(status: Status, hash: Option<string>, message: Option<string>)

  type Table = map<nat, Job>

  const NEW_JOB := Job(Created, None, None)

  // Each UPDATE names one row by id, and touches nothing when there is no such row.

  function WithHash(t: Table, hash: string, id: nat): Table {
    if id in t then t[id := t[id].(status := Published, hash := Some(hash))] else t
  }

  function WithStatus(t: Table, status: Status, id: nat): Table {
    if id in t then t[id := t[id].(status := status)] else t
  }

  function WithError(t: Table, message: string, id: nat): Table {
    if id in t then t[id := t[id].(status := Error, message := Some(message))] else t
  }

  /** selectPublishedJobsWithOperationHash */
  function PublishedWithHash(t: Table): (r: map<nat, string>) {
    map id | id in t && t[id].status == Published && t[id].hash.Some? :: t[id].hash.value
  }

  /** The table as the writers change it in place; ids come from a sequence. */
  class JobsTable {
    var rows: Table
    var nextId: nat

    ghost predicate Valid()
      reads this
    {
      forall id :: id in rows ==> id < nextId
    }

    constructor ()
      ensures Valid() && rows == map[]
    {
      rows, nextId := map[], 0;
    }

    method InsertJob() returns (id: nat)
      requires Valid()
      modifies this
      ensures Valid() && id !in old(rows) && rows == old(rows)[id := NEW_JOB]
      ensures rows[id] == Job(Created, None, None)
    {
      id := nextId;
      rows, nextId := rows[id := NEW_JOB], nextId + 1;
    }

    method UpdateOperationHash(hash: string, id: nat) returns (updated: bool)
      requires Valid()
      modifies `rows
      ensures Valid() && rows == WithHash(old(rows), hash, id) && updated == (id in old(rows))
      ensures rows == if id !in old(rows) then old(rows)
                      else old(rows)[id := Job(Published, Some(hash), old(rows)[id].message)]
    {
      updated := id in rows;
      if updated {
        rows := rows[id := rows[id].(status := Published, hash := Some(hash))];
      }
    }

    method UpdateJobStatusAndOperationHash(status: Status, hash: string, id: nat) returns (updated: bool)
      requires Valid()
      modifies `rows
      ensures Valid() && updated == (id in old(rows))
      ensures rows == WithStatus(WithHash(old(rows), hash, id), status, id)
      ensures rows == if id !in old(rows) then old(rows)
                      else old(rows)[id := Job(status, Some(hash), old(rows)[id].message)]
    {
      updated := id in rows;
      if updated {
        rows := rows[id := rows[id].(status := status, hash := Some(hash))];
      }
    }

    method UpdateJobStatus(status: Status, id: nat) returns (updated: bool)
      requires Valid()
      modifies `rows
      ensures Valid() && rows == WithStatus(old(rows), status, id) && updated == (id in old(rows))
      ensures rows == if id !in old(rows) then old(rows)
                      else old(rows)[id := Job(status, old(rows)[id].hash, old(rows)[id].message)]
    {
      updated := id in rows;
      if updated {
        rows := rows[id := rows[id].(status := status)];
      }
    }

    method UpdateJobStatusAndErrorMessage(message: string, id: nat) returns (updated: bool)
      requires Valid()
      modifies `rows
      ensures Valid() && rows == WithError(old(rows), message, id) && updated == (id in old(rows))
      ensures rows == if id !in old(rows) then old(rows)
                      else old(rows)[id := Job(Error, old(rows)[id].hash, Some(message))]
    {
      updated := id in rows;
      if updated {
        rows := rows[id := rows[id].(status := Error, message := Some(message))];
      }
    }
  }
}
